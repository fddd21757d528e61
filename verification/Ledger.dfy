/** What a step does to the stored rows, and the payments on them, over all runs. */
module Ledger {
  import opened Domain
  import opened Billing
  import opened Persistence
  import opened Sessions
  import opened Lifecycle
  import opened Pointers

  // ---------- rows along a step ----------

  lemma {:induction false} LoadConnectorsRows(h: History, m: Memory, cps: set<string>, order: seq<Place>, f: Faults)
    ensures var l := LoadConnectors(h, m, cps, order, f); SameRows(h, l.history) && l.memory.nextId == m.nextId
    decreases |order|
  {
    if order != [] {
      if order[0].chargePoint !in cps {
        LoadConnectorsRows(h, m, cps, order[1..], f);
      } else {
        var l := LoadConnector(h, m, order[0], f);
        LoadConnectorsRows(l.history, l.memory, cps, order[1..], f);
      }
    }
  }

  /** A history goes on from another without touching transactions or samples. */
  ghost predicate SameRows(h: History, h': History) {
    && |h| <= |h'| && h'[..|h|] == h
    && forall k :: |h| <= k < |h'| ==> h'[k].transactions == Now(h).transactions && h'[k].samples == Now(h).samples
  }

  lemma LocateRows(h: History, m: Memory, cp: string, number: int, order: seq<Place>, f: Faults)
    ensures var l := GetChargePoint(h, m, cp, order, f);
            var g := GetConnector(l.history, l.memory, Place(cp, number), f);
            && SameRows(h, l.history) && SameRows(h, g.history) && l.memory.nextId == g.memory.nextId == m.nextId
            && Now(l.history).transactions == Now(g.history).transactions == Now(h).transactions
            && Now(l.history).samples == Now(g.history).samples == Now(h).samples
  {
    LoadConnectorsRows(h, m.(chargePoints := m.chargePoints + {cp}), {cp}, order, f);
    var l := GetChargePoint(h, m, cp, order, f);
    SameRowsNow(h, l.history);
    SameRowsNow(h, GetConnector(l.history, l.memory, Place(cp, number), f).history);
  }

  lemma SameRowsNow(h: History, h': History)
    requires SameRows(h, h')
    ensures Now(h').transactions == Now(h).transactions && Now(h').samples == Now(h).samples
  {
    if |h'| == |h| {
      assert h'[..|h|] == h';
    }
  }

  /** A row as a start stores it: open, unbilled, with no meter stop. */
  predicate Blank(t: Transaction) {
    !t.finished && t.payment == 0 && t.meterStop == 0 && t.meterStart >= 0
  }

  /** Every row stays or becomes the written one; what is new is a blank row. */
  ghost predicate RowsKept(s: Store, s': Store, written: Option<Transaction>) {
    && (forall i :: i in s.transactions ==>
          i in s'.transactions
          && (s'.transactions[i] == s.transactions[i] || (Some(s'.transactions[i]) == written && s'.transactions[i].id == i)))
    && (forall i :: i in s'.transactions && i !in s.transactions ==> s'.transactions[i].id == i && Blank(s'.transactions[i]))
  }

  ghost predicate RowsAlong(s: Store, h: History, written: Option<Transaction>) {
    forall k :: 0 <= k < |h| ==> RowsKept(s, h[k], written)
  }

  /** The row a step writes over a stored one, if it does: that of a stop, or of a sweep. */
  ghost function Written(w: World, x: Step): Option<Transaction>
    requires w.Up?
  {
    match x.event
    case Stop(r) =>
      if r.id in w.store.transactions && !AlreadyStopped(w.store.transactions[r.id], r)
      then Some(StopFigures(w.store.transactions[r.id], r)) else None
    case Close(tag) =>
      if tag in w.sweeps && w.sweeps[tag].Figured? then Some(w.sweeps[tag].t) else None
    case _ => None
  }

  lemma SameRowsKept(s: Store, h: History, h': History, written: Option<Transaction>)
    requires RowsAlong(s, h, written) && SameRows(h, h')
    ensures RowsAlong(s, h', written)
  {
    forall k | 0 <= k < |h'| ensures RowsKept(s, h'[k], written) {
      if k < |h| {
        assert h'[k] == h[k];
      } else {
        assert RowsKept(s, Now(h), written);
      }
    }
  }

  /** Locating a connector changes no row. */
  lemma LocateKeeps(s: Store, m: Memory, p: Place, order: seq<Place>, f: Faults, written: Option<Transaction>)
    ensures var l := GetChargePoint([s], m, p.chargePoint, order, f);
            var g := GetConnector(l.history, l.memory, p, f);
            && RowsAlong(s, l.history, written) && RowsAlong(s, g.history, written)
            && Now(l.history).transactions == Now(g.history).transactions == s.transactions
  {
    assert Now([s]) == s && RowsAlong(s, [s], written);
    LocateRows([s], m, p.chargePoint, p.number, order, f);
    var l := GetChargePoint([s], m, p.chargePoint, order, f);
    SameRowsKept(s, [s], l.history, written);
    SameRowsKept(s, [s], GetConnector(l.history, l.memory, p, f).history, written);
  }

  lemma PutKeeps(s: Store, h: History, m: Memory, p: Place, c: Connector, f: Faults, written: Option<Transaction>)
    requires RowsAlong(s, h, written)
    ensures RowsAlong(s, PutConnector(h, m, p, c, f).history, written)
  {
    assert RowsKept(s, Now(h), written);
  }

  lemma StartKeeps(s: Store, m: Memory, order: seq<Place>, r: StartRequest, f: Faults)
    ensures RowsAlong(s, StartTransaction([s], m, order, r, f).history, None)
  {
    LocateKeeps(s, m, r.place, order, f, None);
    var l := GetChargePoint([s], m, r.place.chargePoint, order, f);
    var g := GetConnector(l.history, l.memory, r.place, f);
    StartFreshKeeps(s, g.history, g.memory, r, f);
    PutKeeps(s, g.history, g.memory, r.place, FREE, f, None);
    var u := PutConnector(g.history, g.memory, r.place, FREE, f);
    StartFreshKeeps(s, u.history, u.memory, r, f);
  }

  lemma StartFreshKeeps(s: Store, h: History, m: Memory, r: StartRequest, f: Faults)
    requires RowsAlong(s, h, None)
    ensures RowsAlong(s, StartFresh(h, m, r, f).history, None)
  {
    var h' := Record(h, f.addTransaction, Now(h).AddTransaction(NewTransaction(m.nextId, r)));
    AddKeeps(s, h, NewTransaction(m.nextId, r), f);
    PutKeeps(s, h', m.(nextId := m.nextId + 1), r.place, Connector(m.nextId, 0), f, None);
  }

  lemma AddKeeps(s: Store, h: History, t: Transaction, f: Faults)
    requires RowsAlong(s, h, None) && Blank(t)
    ensures RowsAlong(s, Record(h, f.addTransaction, Now(h).AddTransaction(t)), None)
  {
    assert RowsKept(s, Now(h), None);
    assert RowsKept(s, Now(h).AddTransaction(t), None);
  }

  lemma StopKeeps(s: Store, m: Memory, order: seq<Place>, r: StopRequest, f: Faults)
    ensures var written := if r.id in s.transactions && !AlreadyStopped(s.transactions[r.id], r)
                           then Some(StopFigures(s.transactions[r.id], r)) else None;
            RowsAlong(s, StopTransaction([s], m, order, r, f).history, written)
  {
    var number := if r.id in s.transactions then s.transactions[r.id].place.number else 0;
    var p := Place(r.chargePoint, number);
    LocateKeeps(s, m, p, order, f, None);
    if r.id in s.transactions {
      var t := s.transactions[r.id];
      var written := if AlreadyStopped(t, r) then None else Some(StopFigures(t, r));
      LocateKeeps(s, m, p, order, f, written);
      var l := GetChargePoint([s], m, r.chargePoint, order, f);
      var g := GetConnector(l.history, l.memory, p, f);
      var h' := if AlreadyStopped(t, r) then g.history else CloseRow(g.history, StopFigures(t, r), f);
      CloseRowKeeps(s, g.history, StopFigures(t, r), f, written);
      PutKeeps(s, h', g.memory, p, FREE, f, written);
    }
  }

  lemma CloseRowKeeps(s: Store, h: History, t: Transaction, f: Faults, written: Option<Transaction>)
    requires RowsAlong(s, h, written) && Now(h).transactions == s.transactions
    ensures written == Some(t) ==> RowsAlong(s, CloseRow(h, t, f), written)
  {
    assert RowsKept(s, Now(h), written);
    if written == Some(t) {
      assert RowsKept(s, Now(h).UpdateTransaction(t), written);
    }
  }

  lemma {:induction false} ReadingsKeep(s: Store, h: History, t: Transaction, readings: seq<Reading>, f: Faults)
    requires RowsAlong(s, h, None)
    ensures RowsAlong(s, RecordReadings(h, t, readings, f), None)
    decreases |readings|
  {
    if readings != [] {
      var x := readings[0];
      assert RowsKept(s, Now(h), None);
      var h' := if x.value > 0
        then Record(h, f.samples, Now(h).UpsertSample(t.id, Sample(x.time, x.value, DueAt(t, x.time, x.value))))
        else h;
      ReadingsKeep(s, h', t, readings[1..], f);
    }
  }

  lemma MeterKeeps(s: Store, m: Memory, order: seq<Place>, r: MeterRequest, f: Faults)
    ensures RowsAlong(s, MeterValues([s], m, order, r, f).history, None)
  {
    LocateKeeps(s, m, r.place, order, f, None);
    var l := GetChargePoint([s], m, r.place.chargePoint, order, f);
    var g := GetConnector(l.history, l.memory, r.place, f);
    var id := MeteredTransaction(g.connector, r);
    if id.Some? && id.value in Now(g.history).transactions {
      ReadingsKeep(s, g.history, Now(g.history).transactions[id.value], r.readings, f);
    }
  }

  lemma StatusKeeps(s: Store, m: Memory, order: seq<Place>, p: Place, f: Faults)
    ensures RowsAlong(s, StatusNotification([s], m, order, p, f).history, None)
  {
    LocateKeeps(s, m, p, order, f, None);
    var l := GetChargePoint([s], m, p.chargePoint, order, f);
    var g := GetConnector(l.history, l.memory, p, f);
    PutKeeps(s, g.history, g.memory, p, g.connector, f, None);
  }

  lemma ReleaseKeeps(s: Store, m: Memory, order: seq<Place>, t: Transaction, f: Faults)
    ensures RowsAlong(s, ReleaseSwept([s], m, order, t, f).history, None)
  {
    LocateKeeps(s, m, t.place, order, f, None);
    var l := GetChargePoint([s], m, t.place.chargePoint, order, f);
    var g := GetConnector(l.history, l.memory, t.place, f);
    PutKeeps(s, g.history, g.memory, t.place, FREE, f, None);
  }

  lemma SweepKeeps(w: World, x: Step)
    requires w.Up?
    requires x.event.Select? || x.event.Figure? || x.event.Close? || x.event.Purge? || x.event.Restart?
    ensures RowsAlong(w.store, Perform(w, x).history, Written(w, x))
  {
  }

  lemma PerformRows(w: World, x: Step)
    requires w.Up?
    ensures RowsAlong(w.store, Perform(w, x).history, Written(w, x))
  {
    var Up(s, m, sweeps) := w;
    match x.event
    case Start(r) => StartKeeps(s, m, x.order, r, x.faults);
    case Stop(r) => StopKeeps(s, m, x.order, r, x.faults);
    case Meter(r) => MeterKeeps(s, m, x.order, r, x.faults);
    case Save(t, reading) => ReadingsKeep(s, [s], t, [reading], x.faults);
    case Status(p) => StatusKeeps(s, m, x.order, p, x.faults);
    case Release(tag) => if tag in sweeps { ReleaseKeeps(s, m, x.order, sweeps[tag].t, x.faults); }
    case _ => SweepKeeps(w, x);
  }

  /** Whatever fails and wherever the process dies, a step changes no row but the one it writes. */
  lemma AdvanceRows(w: World, x: Step)
    ensures w.Up? ==> RowsKept(w.store, Advance(w, x).store, Written(w, x))
    ensures w.Down? ==> Advance(w, x).store.transactions == w.store.transactions
  {
    if w.Up? {
      PerformRows(w, x);
    } else {
      var m := Memory(map[], w.store.chargePoints.Keys, 1, w.acceptPoints);
      LoadConnectorsRows([w.store], m, w.store.chargePoints.Keys, x.order, x.faults);
    }
  }

  /** Rows are stored under their ids, and a sweep past its selection has a closed copy. */
  ghost predicate Keyed(w: World) {
    w.store.WellKeyed() && (w.Up? ==> ClosedCopies(w.sweeps))
  }

  ghost predicate ClosedCopies(sweeps: map<nat, Sweep>) {
    forall tag :: tag in sweeps ==> sweeps[tag].Selected? || sweeps[tag].t.finished
  }

  lemma WrittenFinished(w: World, x: Step)
    requires w.Up? && Keyed(w)
    ensures Written(w, x).Some? ==> Written(w, x).value.finished
  {
    if x.event.Stop? && x.event.stop.id in w.store.transactions {
      StopFiguresKeeps(w.store.transactions[x.event.stop.id], x.event.stop);
    }
  }

  lemma ClosedCopiesKept(w: World, x: Step)
    requires w.Up? && Keyed(w)
    ensures ClosedCopies(Perform(w, x).sweeps)
  {
  }

  /** A row is left as it is or finished. */
  ghost predicate OpenRowsKept(s: Store, s': Store) {
    forall i :: i in s.transactions ==>
      i in s'.transactions && (s'.transactions[i] == s.transactions[i] || s'.transactions[i].finished)
  }

  lemma AdvanceKeyed(w: World, x: Step)
    requires Keyed(w)
    ensures Keyed(Advance(w, x)) && OpenRowsKept(w.store, Advance(w, x).store)
  {
    AdvanceRows(w, x);
    if w.Up? {
      WrittenFinished(w, x);
      ClosedCopiesKept(w, x);
    }
  }

  /** Once finished, a transaction is never reopened, in any run whatever: not by a stop in any order, a
      sweep with a stale copy, a start under a taken id, or a crash. */
  lemma {:induction false} NeverReopened(w: World, steps: seq<Step>, id: int)
    requires Keyed(w) && id in w.store.transactions && w.store.transactions[id].finished
    ensures var s := Run(w, steps).store; id in s.transactions && s.transactions[id].finished
    decreases |steps|
  {
    if steps != [] {
      AdvanceKeyed(w, steps[0]);
      NeverReopened(Advance(w, steps[0]), steps[1..], id);
    }
  }

  // ---------- payments ----------

  /** A finished row carries exactly what its stored plan, times and meter figures come to; an open
      one carries nothing yet. Only a row closed by the backlog migration is left unbilled. */
  predicate Settled(t: Transaction) {
    if t.finished then
      t.payment == Due(t) || (t.payment == 0 && (t.reason == STOPPED_BACKLOG || t.reason == ABORTED_BACKLOG))
    else Blank(t)
  }

  ghost predicate AllSettled(s: Store) {
    forall i :: i in s.transactions ==> Settled(s.transactions[i])
  }

  ghost predicate SettledSweeps(sweeps: map<nat, Sweep>) {
    forall tag :: tag in sweeps ==> Settled(sweeps[tag].t) && (sweeps[tag].Selected? <==> !sweeps[tag].t.finished)
  }

  ghost predicate SettledWorld(w: World) {
    AllSettled(w.store) && (w.Up? ==> SettledSweeps(w.sweeps))
  }

  lemma StopFiguresSettled(t: Transaction, r: StopRequest)
    requires Settled(t)
    ensures Settled(StopFigures(t, r))
  {
    ApplyBoundariesKeeps(t.(finished := true, timeStop := r.time, meterStop := r.meterStop, reason := r.reason), r.boundaries);
  }

  lemma SweepFiguresSettled(t: Transaction, newest: Option<Sample>)
    requires Settled(t) && !t.finished
    ensures Settled(SweepFigures(t, newest)) && SweepFigures(t, newest).finished
  {
  }

  lemma WrittenSettled(w: World, x: Step)
    requires w.Up? && SettledWorld(w)
    ensures Written(w, x).Some? ==> Settled(Written(w, x).value)
  {
    if x.event.Stop? && x.event.stop.id in w.store.transactions {
      StopFiguresSettled(w.store.transactions[x.event.stop.id], x.event.stop);
    }
  }

  lemma SweepsSettled(w: World, x: Step)
    requires w.Up? && SettledWorld(w)
    ensures SettledSweeps(Perform(w, x).sweeps)
  {
    if x.event.Figure? && x.event.tag in w.sweeps && w.sweeps[x.event.tag].Selected? {
      var t := w.sweeps[x.event.tag].t;
      SweepFiguresSettled(t, if x.faults.read then None else Newest(w.store.SamplesOf(t.id)));
    }
  }

  lemma AdvanceSettled(w: World, x: Step)
    requires SettledWorld(w)
    ensures SettledWorld(Advance(w, x))
  {
    AdvanceRows(w, x);
    if w.Up? {
      WrittenSettled(w, x);
      SweepsSettled(w, x);
    }
  }

  /** Over every run whatever - any faults, any crashes, stops in any order, sweeps overwriting stops
      and stops overwriting sweeps - every finished transaction's payment is the tariff of its own
      stored plan, times and meter figures. */
  lemma {:induction false} RunSettled(w: World, steps: seq<Step>)
    requires SettledWorld(w)
    ensures SettledWorld(Run(w, steps))
    decreases |steps|
  {
    if steps != [] {
      AdvanceSettled(w, steps[0]);
      RunSettled(Advance(w, steps[0]), steps[1..]);
    }
  }
}
