/** A session whose closing write failed: its connector is free, its row still open. Whatever happens
    next, no connector takes it up again, and a later sweep closes it. */
module Recovery {
  import opened Domain
  import opened Persistence
  import opened Sessions
  import opened Loading
  import opened Lifecycle
  import opened Pointers
  import opened Safety
  import opened Selection
  import opened SweepPass
  import opened Ledger
  import opened Stops

  // ---------- no connector holds the session ----------

  /** A transaction's row and connector are stored, and no connector holds it. */
  ghost predicate Shed(s: Store, p: Place, id: int) {
    && id > 0 && id in s.transactions && s.transactions[id].place == p && s.transactions[id].id == id
    && p in s.connectors
    && (forall q :: q in s.connectors ==> s.connectors[q].currentTransactionId != id)
  }

  ghost predicate AllShed(h: History, p: Place, id: int) {
    forall k :: 0 <= k < |h| ==> Shed(h[k], p, id)
  }

  /** Nor does one in memory, and no new session gets its id. */
  ghost predicate Forgotten(m: Memory, id: int) {
    id < m.nextId && forall q :: q in m.connectors ==> m.connectors[q].currentTransactionId != id
  }

  ghost predicate ShedWorld(w: World, p: Place, id: int) {
    && Shed(w.store, p, id)
    && (w.Up? ==> Forgotten(w.memory, id) && SweepsHome(w.sweeps, p, id))
  }

  ghost predicate SweepsHome(sweeps: map<nat, Sweep>, p: Place, id: int) {
    forall tag :: tag in sweeps && sweeps[tag].t.id == id ==> sweeps[tag].t.place == p
  }

  lemma {:induction false} LoadConnectorsShed(h: History, m: Memory, cps: set<string>, order: seq<Place>, f: Faults, p: Place, id: int)
    requires AllShed(h, p, id) && forall q :: q in m.connectors ==> m.connectors[q].currentTransactionId != id
    ensures var l := LoadConnectors(h, m, cps, order, f);
            && AllShed(l.history, p, id) && l.memory.nextId == m.nextId
            && forall q :: q in l.memory.connectors ==> l.memory.connectors[q].currentTransactionId != id
    decreases |order|
  {
    if order != [] {
      if order[0].chargePoint !in cps {
        LoadConnectorsShed(h, m, cps, order[1..], f, p, id);
      } else {
        var l := LoadConnector(h, m, order[0], f);
        LoadConnectorsShed(l.history, l.memory, cps, order[1..], f, p, id);
      }
    }
  }

  lemma LocateShed(h: History, m: Memory, q: Place, order: seq<Place>, f: Faults, p: Place, id: int)
    requires AllShed(h, p, id) && Forgotten(m, id)
    ensures var l := GetChargePoint(h, m, q.chargePoint, order, f);
            var g := GetConnector(l.history, l.memory, q, f);
            && AllShed(l.history, p, id) && Forgotten(l.memory, id)
            && AllShed(g.history, p, id) && Forgotten(g.memory, id) && g.connector.currentTransactionId != id
  {
    LoadConnectorsShed(h, m.(chargePoints := m.chargePoints + {q.chargePoint}), {q.chargePoint}, order, f, p, id);
  }

  lemma PutShed(h: History, m: Memory, q: Place, c: Connector, f: Faults, p: Place, id: int)
    requires AllShed(h, p, id) && Forgotten(m, id) && c.currentTransactionId != id
    ensures var u := PutConnector(h, m, q, c, f); AllShed(u.history, p, id) && Forgotten(u.memory, id)
  {
  }

  lemma StartFreshShed(h: History, m: Memory, r: StartRequest, f: Faults, p: Place, id: int)
    requires AllShed(h, p, id) && Forgotten(m, id)
    ensures var o := StartFresh(h, m, r, f); AllShed(o.history, p, id) && Forgotten(o.memory, id)
  {
    var h' := Record(h, f.addTransaction, Now(h).AddTransaction(NewTransaction(m.nextId, r)));
    PutShed(h', m.(nextId := m.nextId + 1), r.place, Connector(m.nextId, 0), f, p, id);
  }

  lemma StartShed(h: History, m: Memory, order: seq<Place>, r: StartRequest, f: Faults, p: Place, id: int)
    requires AllShed(h, p, id) && Forgotten(m, id)
    ensures var o := StartTransaction(h, m, order, r, f); AllShed(o.history, p, id) && Forgotten(o.memory, id)
  {
    LocateShed(h, m, r.place, order, f, p, id);
    var l := GetChargePoint(h, m, r.place.chargePoint, order, f);
    var g := GetConnector(l.history, l.memory, r.place, f);
    StartFreshShed(g.history, g.memory, r, f, p, id);
    PutShed(g.history, g.memory, r.place, FREE, f, p, id);
    var u := PutConnector(g.history, g.memory, r.place, FREE, f);
    StartFreshShed(u.history, u.memory, r, f, p, id);
  }

  lemma CloseRowShed(h: History, t: Transaction, f: Faults, p: Place, id: int)
    requires AllShed(h, p, id) && (t.id == id ==> t.place == p)
    ensures AllShed(CloseRow(h, t, f), p, id)
  {
  }

  lemma StopShed(h: History, m: Memory, order: seq<Place>, r: StopRequest, f: Faults, p: Place, id: int)
    requires AllShed(h, p, id) && Forgotten(m, id)
    requires Now(h).WellKeyed()
    ensures var o := StopTransaction(h, m, order, r, f); AllShed(o.history, p, id) && Forgotten(o.memory, id)
  {
    LocateRows(h, m, r.chargePoint, 0, order, f);
    LocateShed(h, m, Place(r.chargePoint, 0), order, f, p, id);
    var l := GetChargePoint(h, m, r.chargePoint, order, f);
    if l.found && !f.read && r.id in Now(l.history).transactions {
      var t := Now(l.history).transactions[r.id];
      var q := Place(r.chargePoint, t.place.number);
      LocateShed(h, m, q, order, f, p, id);
      var g := GetConnector(l.history, l.memory, q, f);
      StopFiguresKeeps(t, r);
      CloseRowShed(g.history, StopFigures(t, r), f, p, id);
      PutShed(g.history, g.memory, q, FREE, f, p, id);
      PutShed(CloseRow(g.history, StopFigures(t, r), f), g.memory, q, FREE, f, p, id);
    }
  }

  lemma {:induction false} ReadingsShed(h: History, t: Transaction, readings: seq<Reading>, f: Faults, p: Place, id: int)
    requires AllShed(h, p, id)
    ensures AllShed(RecordReadings(h, t, readings, f), p, id)
    decreases |readings|
  {
    if readings != [] {
      var x := readings[0];
      var h' := if x.value > 0
        then Record(h, f.samples, Now(h).UpsertSample(t.id, Sample(x.time, x.value, Billing.DueAt(t, x.time, x.value))))
        else h;
      ReadingsShed(h', t, readings[1..], f, p, id);
    }
  }

  lemma OthersShed(s: Store, m: Memory, x: Step, sweeps: map<nat, Sweep>, p: Place, id: int)
    requires Shed(s, p, id) && Forgotten(m, id)
    requires x.event.Meter? || x.event.Status? || x.event.Release? || x.event.Save?
    ensures var e := Perform(Up(s, m, sweeps), x); AllShed(e.history, p, id) && Forgotten(e.memory, id)
  {
    var f := x.faults;
    match x.event
    case Meter(r) =>
      LocateShed([s], m, r.place, x.order, f, p, id);
      var l := GetChargePoint([s], m, r.place.chargePoint, x.order, f);
      var g := GetConnector(l.history, l.memory, r.place, f);
      var named := MeteredTransaction(g.connector, r);
      if named.Some? && named.value in Now(g.history).transactions {
        ReadingsShed(g.history, Now(g.history).transactions[named.value], r.readings, f, p, id);
      }
    case Status(q) =>
      LocateShed([s], m, q, x.order, f, p, id);
      var l := GetChargePoint([s], m, q.chargePoint, x.order, f);
      var g := GetConnector(l.history, l.memory, q, f);
      PutShed(g.history, g.memory, q, g.connector, f, p, id);
    case Release(tag) =>
      if tag in sweeps {
        var q := sweeps[tag].t.place;
        LocateShed([s], m, q, x.order, f, p, id);
        var l := GetChargePoint([s], m, q.chargePoint, x.order, f);
        var g := GetConnector(l.history, l.memory, q, f);
        PutShed(g.history, g.memory, q, FREE, f, p, id);
      }
    case Save(t, reading) => ReadingsShed([s], t, [reading], f, p, id);
  }

  lemma PerformShed(w: World, x: Step, p: Place, id: int)
    requires w.Up? && ShedWorld(w, p, id) && w.store.WellKeyed()
    ensures var e := Perform(w, x); AllShed(e.history, p, id) && Forgotten(e.memory, id) && SweepsHome(e.sweeps, p, id)
  {
    var Up(s, m, sweeps) := w;
    match x.event
    case Start(r) => StartShed([s], m, x.order, r, x.faults, p, id);
    case Stop(r) => StopShed([s], m, x.order, r, x.faults, p, id);
    case Meter(_) => OthersShed(s, m, x, sweeps, p, id);
    case Status(_) => OthersShed(s, m, x, sweeps, p, id);
    case Release(_) => OthersShed(s, m, x, sweeps, p, id);
    case Save(_, _) => OthersShed(s, m, x, sweeps, p, id);
    case _ =>
  }

  /** A restart that can read the highest stored id never gives the session's id out again. */
  predicate Counts(w: World, x: Step) {
    x.event.Restart? ==> !x.faults.read
  }

  lemma AdvanceShed(w: World, x: Step, p: Place, id: int)
    requires Keyed(w) && ShedWorld(w, p, id) && Counts(w, x)
    ensures Keyed(Advance(w, x)) && ShedWorld(Advance(w, x), p, id)
  {
    AdvanceKeyed(w, x);
    if w.Up? {
      PerformShed(w, x, p, id);
    } else if x.event.Restart? && ListsConnectors(x.order, w.store) {
      RestartShed(w.store, w.acceptPoints, x, p, id);
    }
  }

  lemma RestartShed(s: Store, acceptPoints: bool, x: Step, p: Place, id: int)
    requires Shed(s, p, id)
    ensures var l := OnStart(s, x.order, acceptPoints, x.faults);
            AllShed(l.history, p, id) && (Forgotten(l.memory, id) <==> !x.faults.read)
  {
    var m := Memory(map[], s.chargePoints.Keys, 1, acceptPoints);
    LoadConnectorsShed([s], m, s.chargePoints.Keys, x.order, x.faults, p, id);
  }

  /** A restart forgets a session no connector holds exactly when it can read the highest id. */
  lemma RestartShedExactly(s: Store, acceptPoints: bool, x: Step, p: Place, id: int)
    requires ShedWorld(Down(s, acceptPoints), p, id) && ListsConnectors(x.order, s) && x.event.Restart? && x.crash.None?
    ensures ShedWorld(Advance(Down(s, acceptPoints), x), p, id) <==> !x.faults.read
  {
    RestartShed(s, acceptPoints, x, p, id);
    assert Advance(Down(s, acceptPoints), x).sweeps == map[];
  }

  /** Once no connector holds a stored session, none ever does again, over every run whose restarts can
      read the highest id, whatever else fails: starts, also such whose rows are lost, stops, meter
      values, sweeps, crashes at any write, connectors that cannot be read or written. */
  lemma {:induction false} RunShed(w: World, steps: seq<Step>, p: Place, id: int)
    requires Keyed(w) && ShedWorld(w, p, id) && Along(w, steps, Counts)
    ensures Keyed(Run(w, steps)) && ShedWorld(Run(w, steps), p, id)
    decreases |steps|
  {
    if steps != [] {
      AdvanceShed(w, steps[0], p, id);
      RunShed(Advance(w, steps[0]), steps[1..], p, id);
    }
  }

  // ---------- a sweep closes it ----------

  lemma FinishCloses(h: History, m: Memory, order: seq<Place>, t: Transaction, f: Faults, id: int)
    requires t.id == id ==> !f.updateTransaction
    ensures var s' := Now(FinishAbandoned(h, m, order, t, f).history);
            id in Now(h).transactions ==>
              && id in s'.transactions
              && (t.id == id || Now(h).transactions[id].finished ==> s'.transactions[id].finished)
  {
    var newest := if f.read then None else Newest(Now(h).SamplesOf(t.id));
    var closed := SweepFigures(t, newest);
    var h1 := Record(h, f.updateTransaction, Now(h).UpdateTransaction(closed));
    ReleaseKeepsRows(h1, m, order, t, f);
    assert Now(FinishAbandoned(h, m, order, t, f).history).transactions == Now(h1).transactions;
  }

  /** A pass finishes every transaction it was given whose row it can write, whatever else fails. */
  lemma {:induction false} PassCloses(h: History, m: Memory, order: seq<Place>, list: seq<Transaction>, faults: int -> Faults, id: int)
    requires id in Now(h).transactions && !faults(id).updateTransaction
    requires id in Ids(list) || Now(h).transactions[id].finished
    ensures var s' := Now(Pass(h, m, order, list, faults).history); id in s'.transactions && s'.transactions[id].finished
    decreases |list|
  {
    if list != [] {
      assert list == [list[0]] + list[1..];
      FinishCloses(h, m, order, list[0], faults(list[0].id), id);
      var l := FinishAbandoned(h, m, order, list[0], faults(list[0].id));
      PassCloses(l.history, l.memory, order, list[1..], faults, id);
    }
  }

  /** If a session is open at a moment at which a sweep selects, it is selected exactly when it has
      been quiet for the grace period; and then the pass closes it. */
  ghost predicate SweptUp(w: World, id: int, out: seq<Swept>, order: seq<Place>, faults: int -> Faults, now: int)
    requires id in w.store.transactions
  {
    w.Up? && !w.store.transactions[id].finished && Selects(out, w.store, now - STALE_AFTER, now - RELEASE_GRACE) ==>
      && (AbandonedAt(w.store, w.store.transactions[id], now) <==> Quiet(w.store, w.store.transactions[id], now - RELEASE_GRACE))
      && (Quiet(w.store, w.store.transactions[id], now - RELEASE_GRACE) ==> Closes(w, id, out, order, faults))
  }

  ghost predicate Closes(w: World, id: int, out: seq<Swept>, order: seq<Place>, faults: int -> Faults)
    requires w.Up?
  {
    var s' := Now(Pass([w.store], w.memory, order, Rows(out), faults).history);
    id in s'.transactions && s'.transactions[id].finished
  }

  lemma ShedIsSwept(w: World, p: Place, id: int, out: seq<Swept>, order: seq<Place>, faults: int -> Faults, now: int)
    requires ShedWorld(w, p, id) && !faults(id).updateTransaction
    ensures SweptUp(w, id, out, order, faults, now)
  {
    var t := w.store.transactions[id];
    if w.Up? && !t.finished && Selects(out, w.store, now - STALE_AFTER, now - RELEASE_GRACE)
       && Quiet(w.store, t, now - RELEASE_GRACE) {
      var x :| x in out && x.t == t;
      var k :| 0 <= k < |out| && out[k] == x;
      assert Rows(out)[k] == t && t in Rows(out);
      PassCloses([w.store], w.memory, order, Rows(out), faults, id);
    }
  }

  // ---------- the two ways a closing write can fail ----------

  /** An own stop of an open transaction whose transaction write alone, or with the samples, fails. */
  ghost predicate FailsToClose(w: World, x: Step) {
    && w.Up? && x.event.Stop? && x.crash.None?
    && x.faults.updateTransaction && !x.faults.read && !x.faults.connector
    && var r := x.event.stop;
       && r.id in w.store.transactions && !w.store.transactions[r.id].finished
       && w.store.transactions[r.id].place.chargePoint == r.chargePoint && Known(w.store, w.memory, r.chargePoint)
       && w.store.transactions[r.id].place in w.store.connectors
  }

  /** A stop whose transaction write fails: at any later moment of any run whose restarts can read the
      highest id, the row is closed, or any sweep past the grace period takes it up and closes it, unless
      its row cannot be written again. */
  lemma FailedStopIsSwept(w: World, x: Step, steps: seq<Step>, out: seq<Swept>, order: seq<Place>, faults: int -> Faults, now: int)
    requires Anchored(w) && FailsToClose(w, x) && Along(Advance(w, x), steps, Counts)
    requires !faults(x.event.stop.id).updateTransaction
    ensures var v, id := Run(Advance(w, x), steps), x.event.stop.id;
            id in v.store.transactions && SweptUp(v, id, out, order, faults, now)
  {
    var id := x.event.stop.id;
    var p := w.store.transactions[id].place;
    FailedStopSheds(w, x);
    RunShed(Advance(w, x), steps, p, id);
    ShedIsSwept(Run(Advance(w, x), steps), p, id, out, order, faults, now);
  }

  lemma FailedStopSheds(w: World, x: Step)
    requires Anchored(w) && FailsToClose(w, x)
    ensures Keyed(Advance(w, x)) && ShedWorld(Advance(w, x), w.store.transactions[x.event.stop.id].place, x.event.stop.id)
  {
    AdvanceAnchored(w, x);
    AdvanceKeyed(w, x);
    FailedStopFrees(w.store, w.memory, x.order, x.event.stop, x.faults);
    var v, t := Advance(w, x), w.store.transactions[x.event.stop.id];
    forall q | q in v.store.connectors ensures v.store.connectors[q].currentTransactionId != t.id {
      assert Holds(v.store, q, v.store.connectors[q].currentTransactionId);
    }
    forall q | q in v.memory.connectors ensures v.memory.connectors[q].currentTransactionId != t.id {
      assert Holds(v.store, q, v.memory.connectors[q].currentTransactionId);
    }
  }

  /** A sweep whose transaction write failed: from its locked release on the same holds. */
  lemma FailedCloseIsSwept(w: World, x: Step, steps: seq<Step>, out: seq<Swept>, order: seq<Place>, faults: int -> Faults, now: int)
    requires Sound(w) && w.Up? && x.event.Release? && x.event.tag in w.sweeps && w.sweeps[x.event.tag].Closed?
    requires Fair(w, x) && x.crash.None? && Along(Advance(w, x), steps, Counts)
    requires w.sweeps[x.event.tag].t.place in w.store.connectors && !faults(w.sweeps[x.event.tag].t.id).updateTransaction
    ensures var v, id := Run(Advance(w, x), steps), w.sweeps[x.event.tag].t.id;
            id in v.store.transactions && SweptUp(v, id, out, order, faults, now)
  {
    var t, v := w.sweeps[x.event.tag].t, Advance(w, x);
    FailedCloseSheds(w, x);
    RunShed(v, steps, t.place, t.id);
    ShedIsSwept(Run(v, steps), t.place, t.id, out, order, faults, now);
  }

  lemma FailedCloseSheds(w: World, x: Step)
    requires Sound(w) && w.Up? && x.event.Release? && x.event.tag in w.sweeps && w.sweeps[x.event.tag].Closed?
    requires Fair(w, x) && x.crash.None? && w.sweeps[x.event.tag].t.place in w.store.connectors
    ensures var t, v := w.sweeps[x.event.tag].t, Advance(w, x); Keyed(v) && ShedWorld(v, t.place, t.id)
  {
    var t, v := w.sweeps[x.event.tag].t, Advance(w, x);
    AdvanceSound(w, x);
    AdvanceKeyed(w, x);
    ReleaseFrees(w.store, w.memory, x.order, t, x.faults, Closing(w.sweeps));
    ReleaseKeepsPlace([w.store], w.memory, x.order, t, x.faults);
    assert v.store == Now(ReleaseSwept([w.store], w.memory, x.order, t, x.faults).history);
    UnheldIsShed(v, t.place, t.id);
  }

  lemma UnheldIsShed(v: World, p: Place, id: int)
    requires Sound(v) && v.Up? && id in v.store.transactions && v.store.transactions[id].place == p && p in v.store.connectors
    requires forall q :: !PointsTo(v.store, q, id)
    ensures ShedWorld(v, p, id)
  {
    forall q | q in v.memory.connectors ensures v.memory.connectors[q].currentTransactionId != id {
      assert !PointsTo(v.store, q, id);
    }
    forall q | q in v.store.connectors ensures v.store.connectors[q].currentTransactionId != id {
      assert !PointsTo(v.store, q, id);
    }
  }

  lemma ReleaseFrees(s: Store, m: Memory, order: seq<Place>, t: Transaction, f: Faults, closing: set<int>)
    requires Calm([s], m, closing) && Tracks(s, m, f) && t.id in s.transactions && s.transactions[t.id].place == t.place
    ensures forall q :: !PointsTo(Now(ReleaseSwept([s], m, order, t, f).history), q, t.id)
    ensures var s' := Now(ReleaseSwept([s], m, order, t, f).history);
            t.id in s'.transactions && s'.transactions[t.id].place == t.place
  {
    assert Now([s]) == s;
    ReleaseEffect([s], m, order, t, f, closing, closing);
  }

  lemma ReleaseKeepsPlace(h: History, m: Memory, order: seq<Place>, t: Transaction, f: Faults)
    requires t.place in Now(h).connectors
    ensures t.place in Now(ReleaseSwept(h, m, order, t, f).history).connectors
  {
    LoadConnectorsKeepsPlace(h, m.(chargePoints := m.chargePoints + {t.place.chargePoint}), {t.place.chargePoint}, order, f, t.place);
  }

  lemma {:induction false} LoadConnectorsKeepsPlace(h: History, m: Memory, cps: set<string>, order: seq<Place>, f: Faults, p: Place)
    requires p in Now(h).connectors
    ensures p in Now(LoadConnectors(h, m, cps, order, f).history).connectors
    decreases |order|
  {
    if order != [] {
      if order[0].chargePoint !in cps {
        LoadConnectorsKeepsPlace(h, m, cps, order[1..], f, p);
      } else {
        var l := LoadConnector(h, m, order[0], f);
        LoadConnectorsKeepsPlace(l.history, l.memory, cps, order[1..], f, p);
      }
    }
  }
}
