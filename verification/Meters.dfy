/** Running prices of samples, and the meter stop of a closed transaction. */
module Meters {
  import opened Domain
  import opened Billing
  import opened Persistence
  import opened Sessions
  import opened Loading
  import opened Lifecycle
  import opened Pointers
  import opened Ledger

  // ---------- running prices ----------

  /** Samples belong to stored transactions, and the samples of an open one carry its running price. */
  ghost predicate Priced(s: Store) {
    && (forall i :: i in s.samples ==> i in s.transactions)
    && (forall i, x :: i in s.transactions && !s.transactions[i].finished && x in s.SamplesOf(i) ==>
          x.price == DueAt(s.transactions[i], x.time, x.value))
  }

  ghost predicate PricedAlong(h: History) {
    forall k :: 0 <= k < |h| ==> Priced(h[k])
  }

  /** A copy of a row is the stored row for as long as that row is open. */
  predicate CopyTrue(s: Store, t: Transaction) {
    t.id in s.transactions && (s.transactions[t.id].finished || s.transactions[t.id] == t)
  }

  ghost predicate CopiesTrue(s: Store, sweeps: map<nat, Sweep>) {
    forall tag :: tag in sweeps && sweeps[tag].Selected? ==> CopyTrue(s, sweeps[tag].t)
  }

  /** A step whose Save, if it is one, files its reading with a copy that was read from the database;
      CopiesStayTrue shows that every copy read earlier in the run will do. */
  predicate Filing(w: World, x: Step) {
    w.Up? && x.event.Save? ==> CopyTrue(w.store, x.event.copy)
  }

  ghost predicate PricedWorld(w: World) {
    Keyed(w) && Priced(w.store) && (w.Up? ==> CopiesTrue(w.store, w.sweeps))
  }

  lemma SameRowsPriced(h: History, h': History)
    requires PricedAlong(h) && SameRows(h, h')
    ensures PricedAlong(h') && Now(h').transactions == Now(h).transactions && Now(h').samples == Now(h).samples
  {
    SameRowsNow(h, h');
    forall k | 0 <= k < |h'| ensures Priced(h'[k]) {
      if k < |h| {
        assert h'[k] == h[k];
      } else {
        PricedByRows(Now(h), h'[k]);
      }
    }
  }

  lemma PricedByRows(s: Store, s': Store)
    requires Priced(s) && s'.transactions == s.transactions && s'.samples == s.samples
    ensures Priced(s')
  {
    assert forall i :: s'.SamplesOf(i) == s.SamplesOf(i);
  }

  lemma {:induction false} UpsertMembers(s: seq<Sample>, x: Sample)
    ensures forall y :: y in Upsert(s, x) ==> y == x || y in s
  {
    if s != [] {
      UpsertMembers(s[1..], x);
      assert s == [s[0]] + s[1..];
    }
  }

  lemma UpsertPriced(s: Store, t: Transaction, x: Sample)
    requires Priced(s) && CopyTrue(s, t) && x.price == DueAt(t, x.time, x.value)
    ensures Priced(s.UpsertSample(t.id, x))
  {
    UpsertMembers(s.SamplesOf(t.id), x);
  }

  lemma {:induction false} ReadingsPriced(h: History, t: Transaction, readings: seq<Reading>, f: Faults)
    requires PricedAlong(h) && CopyTrue(Now(h), t)
    ensures PricedAlong(RecordReadings(h, t, readings, f))
    decreases |readings|
  {
    if readings != [] {
      var x := readings[0];
      var sample := Sample(x.time, x.value, DueAt(t, x.time, x.value));
      UpsertPriced(Now(h), t, sample);
      ReadingsPriced(if x.value > 0 then Record(h, f.samples, Now(h).UpsertSample(t.id, sample)) else h, t, readings[1..], f);
    }
  }

  lemma StartPriced(s: Store, m: Memory, order: seq<Place>, r: StartRequest, f: Faults)
    requires Priced(s)
    ensures PricedAlong(StartTransaction([s], m, order, r, f).history)
  {
    LocateRows([s], m, r.place.chargePoint, r.place.number, order, f);
    var l := GetChargePoint([s], m, r.place.chargePoint, order, f);
    var g := GetConnector(l.history, l.memory, r.place, f);
    SameRowsPriced([s], l.history);
    SameRowsPriced([s], g.history);
    StartOnPriced(g.history, g.memory, g.connector, r, f);
  }

  lemma StartOnPriced(h: History, m: Memory, c: Connector, r: StartRequest, f: Faults)
    requires PricedAlong(h)
    ensures PricedAlong(StartOn(h, m, c, r, f).history)
  {
    StartFreshPriced(h, m, r, f);
    PutPriced(h, m, r.place, FREE, f);
    var u := PutConnector(h, m, r.place, FREE, f);
    StartFreshPriced(u.history, u.memory, r, f);
  }

  lemma StartFreshPriced(h: History, m: Memory, r: StartRequest, f: Faults)
    requires PricedAlong(h)
    ensures PricedAlong(StartFresh(h, m, r, f).history)
  {
    var s := Now(h);
    var s1 := s.AddTransaction(NewTransaction(m.nextId, r));
    assert forall i :: s1.SamplesOf(i) == s.SamplesOf(i);
    assert m.nextId !in s.transactions ==> m.nextId !in s.samples;
    assert Priced(s1);
    var s2 := if f.addTransaction then s else s1;
    PricedByRows(s2, s2.UpdateConnector(r.place, Connector(m.nextId, 0)));
  }

  lemma CloseRowPriced(h: History, t: Transaction, f: Faults)
    requires PricedAlong(h) && t.finished && t.id in Now(h).transactions
    ensures PricedAlong(CloseRow(h, t, f))
  {
    UpdatePriced(Now(h), t);
    assert Priced(Now(h).UpdateTransaction(t).DeleteSamples(t.id));
  }

  lemma StopPriced(s: Store, m: Memory, order: seq<Place>, r: StopRequest, f: Faults)
    requires Priced(s) && s.WellKeyed()
    ensures PricedAlong(StopTransaction([s], m, order, r, f).history)
  {
    LocateRows([s], m, r.chargePoint, 0, order, f);
    var l := GetChargePoint([s], m, r.chargePoint, order, f);
    SameRowsPriced([s], l.history);
    if l.found && !f.read && r.id in Now(l.history).transactions {
      var t := Now(l.history).transactions[r.id];
      var p := Place(r.chargePoint, t.place.number);
      LocateRows([s], m, r.chargePoint, p.number, order, f);
      var g := GetConnector(l.history, l.memory, p, f);
      SameRowsPriced([s], g.history);
      StopFiguresKeeps(t, r);
      CloseRowPriced(g.history, StopFigures(t, r), f);
      PutPriced(g.history, g.memory, p, FREE, f);
      PutPriced(CloseRow(g.history, StopFigures(t, r), f), g.memory, p, FREE, f);
    }
  }

  lemma PutPriced(h: History, m: Memory, p: Place, c: Connector, f: Faults)
    requires PricedAlong(h)
    ensures PricedAlong(PutConnector(h, m, p, c, f).history)
  {
    PricedByRows(Now(h), Now(h).UpdateConnector(p, c));
  }

  lemma MeterPriced(s: Store, m: Memory, order: seq<Place>, r: MeterRequest, f: Faults)
    requires Priced(s) && s.WellKeyed()
    ensures PricedAlong(MeterValues([s], m, order, r, f).history)
  {
    LocateRows([s], m, r.place.chargePoint, r.place.number, order, f);
    var l := GetChargePoint([s], m, r.place.chargePoint, order, f);
    var g := GetConnector(l.history, l.memory, r.place, f);
    SameRowsPriced([s], l.history);
    SameRowsPriced([s], g.history);
    var id := MeteredTransaction(g.connector, r);
    if id.Some? && id.value in Now(g.history).transactions {
      assert s.transactions[id.value].id == id.value;
      ReadingsPriced(g.history, Now(g.history).transactions[id.value], r.readings, f);
    }
  }

  lemma StatusPriced(s: Store, m: Memory, order: seq<Place>, p: Place, f: Faults)
    requires Priced(s)
    ensures PricedAlong(StatusNotification([s], m, order, p, f).history)
  {
    LocateRows([s], m, p.chargePoint, p.number, order, f);
    var l := GetChargePoint([s], m, p.chargePoint, order, f);
    var g := GetConnector(l.history, l.memory, p, f);
    SameRowsPriced([s], l.history);
    SameRowsPriced([s], g.history);
    PutPriced(g.history, g.memory, p, g.connector, f);
  }

  lemma ReleasePriced(s: Store, m: Memory, order: seq<Place>, t: Transaction, f: Faults)
    requires Priced(s)
    ensures PricedAlong(ReleaseSwept([s], m, order, t, f).history)
  {
    LocateRows([s], m, t.place.chargePoint, t.place.number, order, f);
    var l := GetChargePoint([s], m, t.place.chargePoint, order, f);
    var g := GetConnector(l.history, l.memory, t.place, f);
    SameRowsPriced([s], l.history);
    SameRowsPriced([s], g.history);
    PutPriced(g.history, g.memory, t.place, FREE, f);
  }

  lemma OthersPriced(w: World, x: Step)
    requires w.Up? && PricedWorld(w)
    requires x.event.Meter? || x.event.Status? || x.event.Release?
    ensures PricedAlong(Perform(w, x).history)
  {
    var Up(s, m, sweeps) := w;
    match x.event
    case Meter(r) => MeterPriced(s, m, x.order, r, x.faults);
    case Status(p) => StatusPriced(s, m, x.order, p, x.faults);
    case Release(tag) => if tag in sweeps { ReleasePriced(s, m, x.order, sweeps[tag].t, x.faults); }
  }

  lemma UpdatePriced(s: Store, t: Transaction)
    requires Priced(s) && t.finished
    ensures Priced(s.UpdateTransaction(t))
  {
    assert forall i :: s.UpdateTransaction(t).SamplesOf(i) == s.SamplesOf(i);
  }

  lemma SweepPriced(w: World, x: Step)
    requires w.Up? && PricedWorld(w)
    requires x.event.Select? || x.event.Figure? || x.event.Close? || x.event.Purge? || x.event.Restart?
    ensures PricedAlong(Perform(w, x).history)
  {
    var Up(s, m, sweeps) := w;
    if x.event.Close? && x.event.tag in sweeps && sweeps[x.event.tag].Figured? {
      UpdatePriced(s, sweeps[x.event.tag].t);
    } else if x.event.Purge? && x.event.tag in sweeps {
      assert Priced(s.DeleteSamples(sweeps[x.event.tag].t.id));
    }
  }

  lemma PerformPriced(w: World, x: Step)
    requires w.Up? && PricedWorld(w) && Filing(w, x)
    ensures PricedAlong(Perform(w, x).history)
  {
    var Up(s, m, sweeps) := w;
    match x.event
    case Start(r) => StartPriced(s, m, x.order, r, x.faults);
    case Stop(r) => StopPriced(s, m, x.order, r, x.faults);
    case Meter(_) => OthersPriced(w, x);
    case Save(t, reading) => ReadingsPriced([s], t, [reading], x.faults);
    case Status(_) => OthersPriced(w, x);
    case Release(_) => OthersPriced(w, x);
    case _ => SweepPriced(w, x);
  }

  /** Sweeps take up rows as they are stored, and keep the copies. */
  lemma CopiesKept(w: World, x: Step, s': Store)
    requires w.Up? && PricedWorld(w) && OpenRowsKept(w.store, s')
    ensures CopiesTrue(s', Perform(w, x).sweeps)
  {
    var sweeps' := Perform(w, x).sweeps;
    forall tag | tag in sweeps' && sweeps'[tag].Selected? ensures CopyTrue(s', sweeps'[tag].t) {
      CopyTaken(w, x, tag);
    }
  }

  lemma CopyTaken(w: World, x: Step, tag: nat)
    requires w.Up? && PricedWorld(w) && tag in Perform(w, x).sweeps && Perform(w, x).sweeps[tag].Selected?
    ensures CopyTrue(w.store, Perform(w, x).sweeps[tag].t)
  {
  }

  lemma AdvancePriced(w: World, x: Step)
    requires PricedWorld(w) && Filing(w, x)
    ensures PricedWorld(Advance(w, x)) && OpenRowsKept(w.store, Advance(w, x).store)
  {
    AdvanceKeyed(w, x);
    if w.Up? {
      PerformPriced(w, x);
      if x.crash.None? { CopiesKept(w, x, Advance(w, x).store); }
    } else if x.event.Restart? {
      var m := Memory(map[], w.store.chargePoints.Keys, 1, w.acceptPoints);
      LoadConnectorsRows([w.store], m, w.store.chargePoints.Keys, x.order, x.faults);
      SameRowsPriced([w.store], LoadConnectors([w.store], m, w.store.chargePoints.Keys, x.order, x.faults).history);
    }
  }

  /** Over every run, whatever fails in it, the samples of an open transaction carry its running price. */
  lemma {:induction false} RunPriced(w: World, steps: seq<Step>)
    requires PricedWorld(w) && Along(w, steps, Filing)
    ensures PricedWorld(Run(w, steps))
    decreases |steps|
  {
    if steps != [] {
      AdvancePriced(w, steps[0]);
      RunPriced(Advance(w, steps[0]), steps[1..]);
    }
  }

  /** A copy of a row read at some point stays good for filing readings, whatever runs before they are
      filed: starts, stops, sweeps, other readings, crashes. */
  lemma {:induction false} CopiesStayTrue(w: World, steps: seq<Step>, t: Transaction)
    requires PricedWorld(w) && Along(w, steps, Filing) && CopyTrue(w.store, t)
    ensures CopyTrue(Run(w, steps).store, t)
    decreases |steps|
  {
    if steps != [] {
      AdvancePriced(w, steps[0]);
      CopiesStayTrue(Advance(w, steps[0]), steps[1..], t);
    }
  }

  /** A filing step that leaves one sweep's document alone: the process lives on, and the event is not
      that sweep's write. */
  predicate Beside(w: World, x: Step, tag: nat) {
    Filing(w, x) && x.crash.None? && x.event != Close(tag)
  }

  lemma {:induction false} FiguresWait(w: World, steps: seq<Step>, tag: nat)
    requires w.Up? && tag in w.sweeps && w.sweeps[tag].Figured?
    requires Along(w, steps, (v, x) => Beside(v, x, tag))
    ensures Run(w, steps).Up? && tag in Run(w, steps).sweeps && Run(w, steps).sweeps[tag] == w.sweeps[tag]
    ensures Along(w, steps, Filing)
    decreases |steps|
  {
    if steps != [] {
      FiguresWaitStep(w, steps[0], tag);
      FiguresWait(Advance(w, steps[0]), steps[1..], tag);
    }
  }

  lemma FiguresWaitStep(w: World, x: Step, tag: nat)
    requires w.Up? && tag in w.sweeps && w.sweeps[tag].Figured? && Beside(w, x, tag)
    ensures var v := Advance(w, x); v.Up? && tag in v.sweeps && v.sweeps[tag] == w.sweeps[tag]
  {
  }

  /** A sweep works out the figures of a session that is still open; whatever runs before it writes
      them, once the write lands the stored session is closed and charged the running price its newest
      sample had then. */
  lemma SystemStopPrice(w: World, steps: seq<Step>, tag: nat, x: Step, between: seq<Step>, y: Step)
    requires PricedWorld(w) && SettledWorld(w) && Along(w, steps, Filing)
    requires Run(w, steps).Up? && tag in Run(w, steps).sweeps && Run(w, steps).sweeps[tag].Selected?
    requires var v := Run(w, steps); var t := v.sweeps[tag].t;
             t.id in v.store.transactions && !v.store.transactions[t.id].finished && v.store.SamplesOf(t.id) != []
    requires x.event == Figure(tag) && x.crash.None? && !x.faults.read && Filing(Run(w, steps), x)
    requires Along(Advance(Run(w, steps), x), between, (v, z) => Beside(v, z, tag))
    requires y.event == Close(tag) && y.crash.None? && !y.faults.updateTransaction
    ensures var v := Run(w, steps);
            var newest := Newest(v.store.SamplesOf(v.sweeps[tag].t.id)).value;
            var s := Advance(Run(Advance(v, x), between), y).store;
            && v.sweeps[tag].t.id in s.transactions
            && var row := s.transactions[v.sweeps[tag].t.id];
               row.finished && row.payment == newest.price && row.meterStop == newest.value && row.timeStop == newest.time
  {
    RunPriced(w, steps);
    RunSettled(w, steps);
    var v := Run(w, steps);
    var t := v.sweeps[tag].t;
    FigurePrice(v, tag, x);
    var v1 := Advance(v, x);
    AdvancePriced(v, x);
    FiguresWait(v1, between, tag);
    CopiesStayTrue(v1, between, t);
    var v2 := Run(v1, between);
    assert v2.sweeps[tag] == v1.sweeps[tag];
    assert Advance(v2, y).store == v2.store.UpdateTransaction(v2.sweeps[tag].t);
  }

  lemma FigurePrice(v: World, tag: nat, x: Step)
    requires v.Up? && tag in v.sweeps && v.sweeps[tag].Selected? && x.event == Figure(tag) && x.crash.None? && !x.faults.read
    requires Priced(v.store) && CopiesTrue(v.store, v.sweeps) && SettledWorld(v)
    requires var t := v.sweeps[tag].t;
             t.id in v.store.transactions && !v.store.transactions[t.id].finished && v.store.SamplesOf(t.id) != []
    ensures var w := Advance(v, x);
            var newest := Newest(v.store.SamplesOf(v.sweeps[tag].t.id)).value;
            && w.Up? && tag in w.sweeps && w.sweeps[tag].Figured? && w.sweeps[tag].t.payment == newest.price
            && w.sweeps[tag].t.meterStop == newest.value && w.sweeps[tag].t.timeStop == newest.time
            && w.sweeps[tag].t.id == v.sweeps[tag].t.id && w.sweeps[tag].t.finished && w.store == v.store
  {
    var t := v.sweeps[tag].t;
    assert v.store.transactions[t.id] == t;
    assert Newest(v.store.SamplesOf(t.id)).value in v.store.SamplesOf(t.id);
  }

  // ---------- the meter stop ----------

  function LastEnd(bs: seq<Boundary>): Option<int>
    decreases |bs|
  {
    if bs == [] then None
    else if LastEnd(bs[1..]).None? && bs[0].End? then Some(bs[0].value)
    else LastEnd(bs[1..])
  }

  /** The meter figure of a stop: its last closing boundary value, else the one it reports. */
  function Filed(r: StopRequest): int {
    match LastEnd(r.boundaries)
    case None => r.meterStop
    case Some(v) => v
  }

  lemma {:induction false} BoundariesFile(t: Transaction, bs: seq<Boundary>)
    ensures ApplyBoundaries(t, bs).meterStop == match LastEnd(bs) case None => t.meterStop case Some(v) => v
    decreases |bs|
  {
    if bs != [] {
      BoundariesFile(ApplyBoundary(t, bs[0]), bs[1..]);
    }
  }

  lemma StopFiles(t: Transaction, r: StopRequest)
    ensures StopFigures(t, r).meterStop == Filed(r)
  {
    BoundariesFile(t.(finished := true, timeStop := r.time, meterStop := r.meterStop, reason := r.reason), r.boundaries);
  }

  /** A step after which a row is stored as given. */
  ghost predicate Lands(w: World, x: Step, id: int, t: Transaction) {
    var s' := Advance(w, x).store;
    id in s'.transactions && s'.transactions[id] == t
  }

  /** A stop that reads a finished row and lets it stand. */
  ghost predicate LetsStand(w: World, x: Step, id: int)
    requires w.Up? && id in w.store.transactions
  {
    && x.event.Stop? && x.event.stop.id == id && !x.faults.read && Known(w.store, w.memory, x.event.stop.chargePoint)
    && AlreadyStopped(w.store.transactions[id], x.event.stop)
  }

  /** The meter figure a step reports for the end of a transaction: that of a stop which lets the row
      stand, or of a stop or sweep whose row lands. A figure whose write fails, or is never reached
      because the process dies, is not reported. */
  ghost function Reported(w: World, x: Step, id: int): Option<int> {
    if w.Down? || id !in w.store.transactions then None
    else if LetsStand(w, x, id) then Some(Filed(x.event.stop))
    else match Written(w, x)
      case None => None
      case Some(t) =>
        if t.id != id || !Lands(w, x, id, t) then None
        else if x.event.Stop? then Some(Filed(x.event.stop)) else Some(t.meterStop)
  }

  /** A figure that is let pass where the stored one is at least as high, and overwrites only a lower
      one. A stop is let pass by the figure it reports but files its closing boundary value; a sweep
      writes the figure it worked out, whatever a stop has stored meanwhile. */
  ghost predicate KeepsHighest(w: World, x: Step, id: int) {
    Reported(w, x, id).Some? && w.store.transactions[id].finished ==>
      var stored, figure := w.store.transactions[id].meterStop, Reported(w, x, id).value;
      if LetsStand(w, x, id) then figure <= stored else stored <= figure
  }

  /** All figures reported for a transaction along a run, in order. */
  ghost function Reports(w: World, steps: seq<Step>, id: int): seq<int>
    decreases |steps|
  {
    if steps == [] then []
    else
      var rest := Reports(Advance(w, steps[0]), steps[1..], id);
      match Reported(w, steps[0], id)
      case None => rest
      case Some(v) => [v] + rest
  }

  function Highest(values: seq<int>): (r: Option<int>)
    ensures r.None? <==> values == []
    ensures r.Some? ==> r.value in values && forall v :: v in values ==> v <= r.value
  {
    if values == [] then None
    else
      assert values == [values[0]] + values[1..];
      Higher(Some(values[0]), Highest(values[1..]))
  }

  function Stored(s: Store, id: int): Option<int> {
    if id in s.transactions && s.transactions[id].finished then Some(s.transactions[id].meterStop) else None
  }

  function Higher(a: Option<int>, b: Option<int>): Option<int> {
    if a.None? then b else if b.None? then a else Some(Max(a.value, b.value))
  }

  /** A row changes by what is reported for it, and only by that. */
  lemma RowReports(w: World, x: Step, id: int)
    requires w.Up? && Keyed(w) && id in w.store.transactions
    ensures id in Advance(w, x).store.transactions
    ensures var t, t' := w.store.transactions[id], Advance(w, x).store.transactions[id];
            match Reported(w, x, id)
            case None => t' == t
            case Some(v) => if LetsStand(w, x, id) then t' == t && t.finished else t'.finished && t'.meterStop == v
  {
    AdvanceRows(w, x);
    WrittenFinished(w, x);
    if x.event.Stop? && x.event.stop.id in w.store.transactions {
      StopFiles(w.store.transactions[x.event.stop.id], x.event.stop);
      StopFiguresKeeps(w.store.transactions[x.event.stop.id], x.event.stop);
    }
  }

  /** One step leaves the higher of the stored and the reported figure exactly when the figure it
      lets pass is no higher than the stored one, and the figure it writes no lower. */
  lemma AdvanceMeterExactly(w: World, x: Step, id: int)
    requires Keyed(w)
    ensures Stored(Advance(w, x).store, id) == Higher(Stored(w.store, id), Reported(w, x, id)) <==> KeepsHighest(w, x, id)
  {
    if w.Up? && id in w.store.transactions {
      RowReports(w, x, id);
    } else {
      AdvanceRows(w, x);
    }
  }

  /** So a stop that files the figure it reports always does, early, late or repeated, and so does a sweep
      whose row is still open, or finished with no higher figure, when it writes. */
  lemma PlainKeepsHighest(w: World, x: Step, id: int)
    requires Keyed(w)
    requires x.event.Stop? ==> Filed(x.event.stop) == x.event.stop.meterStop
    requires w.Up? && x.event.Close? && x.event.tag in w.sweeps && id in w.store.transactions ==>
               !w.store.transactions[id].finished || w.store.transactions[id].meterStop <= w.sweeps[x.event.tag].t.meterStop
    ensures KeepsHighest(w, x, id)
  {
    if w.Up? && x.event.Stop? && x.event.stop.id in w.store.transactions {
      StopFiguresKeeps(w.store.transactions[x.event.stop.id], x.event.stop);
    }
  }

  /** Whatever the order in which late, early and repeated stops and sweeps report, whichever of their
      writes fail and wherever the process dies, a transaction is finished exactly when it was before
      or something was reported for it, and then its stored meter stop is the highest figure of all. */
  lemma {:induction false} MeterStopIsHighest(w: World, steps: seq<Step>, id: int)
    requires Keyed(w) && Along(w, steps, (v, x) => KeepsHighest(v, x, id))
    ensures Stored(Run(w, steps).store, id) == Higher(Stored(w.store, id), Highest(Reports(w, steps, id)))
    decreases |steps|
  {
    if steps != [] {
      AdvanceKeyed(w, steps[0]);
      AdvanceMeterExactly(w, steps[0], id);
      MeterStopIsHighest(Advance(w, steps[0]), steps[1..], id);
      var rest := Reports(Advance(w, steps[0]), steps[1..], id);
      var v := Reported(w, steps[0], id);
      if v.Some? {
        assert ([v.value] + rest)[1..] == rest;
      }
    }
  }
}
