/** The system handler (server/system_handler.go): its fields are updated in place, its database is
    written one document at a time, and every method is proved to do what module Sessions says. */
module Handler {
  import opened Domain
  import opened Persistence
  import opened Sessions
  import opened Selection
  import opened SweepPass
  import Billing

  class SystemHandler {
    const database: Database
    const billing: Billing.Affleck
    const acceptPoints: bool
    var connectors: map<Place, Connector>
    var chargePoints: set<string>
    var newTransactionId: int

    constructor (database: Database, billing: Billing.Affleck, acceptPoints: bool)
      ensures this.database == database && this.billing == billing && this.acceptPoints == acceptPoints
      ensures State() == Memory(map[], {}, 1, acceptPoints)
    {
      this.database, this.billing, this.acceptPoints := database, billing, acceptPoints;
      connectors, chargePoints, newTransactionId := map[], {}, 1;
    }

    function State(): Memory
      reads this
    {
      Memory(connectors, chargePoints, newTransactionId, acceptPoints)
    }

    /** Loads the stored charge points and their connectors, releasing pointers to finished
        transactions, and takes the next transaction id from the highest stored one. The order is
        the one the database cursor happened to use. */
    method OnStart(f: Faults) returns (order: seq<Place>)
      requires database.Valid() && database.history == [database.State()]
      requires State() == Memory(map[], {}, 1, acceptPoints)
      modifies this, database
      ensures database.Valid() && ListsConnectors(order, old(database.State()))
      ensures Located(true, database.history, State()) == Sessions.OnStart(old(database.State()), order, acceptPoints, f)
    {
      order := database.ListConnectors();
      chargePoints := database.chargePoints.Keys;
      InitializeChargePoints(chargePoints, order, f);
      var last := database.GetLastTransactionId(f.read);
      if last != None {
        newTransactionId := last.value + 1;
      }
    }

    /** Loads the connectors of some charge points, in cursor order. */
    method InitializeChargePoints(cps: set<string>, order: seq<Place>, f: Faults)
      requires database.Valid()
      modifies this`connectors, database
      ensures database.Valid()
      ensures Located(true, database.history, State()) == LoadConnectors(old(database.history), old(State()), cps, order, f)
    {
      var i := 0;
      while i < |order|
        invariant 0 <= i <= |order| && database.Valid()
        invariant LoadConnectors(database.history, State(), cps, order[i..], f)
               == LoadConnectors(old(database.history), old(State()), cps, order, f)
      {
        ghost var rest := order[i..];
        assert rest[1..] == order[i + 1..];
        if order[i].chargePoint in cps {
          InitializeConnector(order[i], f);
        }
        i := i + 1;
      }
    }

    method InitializeConnector(p: Place, f: Faults)
      requires database.Valid()
      modifies this`connectors, database
      ensures database.Valid()
      ensures Located(true, database.history, State()) == LoadConnector(old(database.history), old(State()), p, f)
    {
      if p in database.connectors {
        var connector := database.connectors[p];
        connectors := connectors[p := connector];
        if connector.currentTransactionId != -1 {
          var transaction := database.GetTransaction(connector.currentTransactionId, f.read);
          if transaction.Found? && transaction.value.finished {
            connectors := connectors[p := FREE];
            database.UpdateConnector(p, FREE, f.connector);
          }
        }
      }
    }

    method GetChargePoint(cp: string, order: seq<Place>, f: Faults) returns (found: bool)
      requires database.Valid()
      modifies this, database
      ensures database.Valid()
      ensures Located(found, database.history, State()) == Sessions.GetChargePoint(old(database.history), old(State()), cp, order, f)
    {
      if cp in chargePoints {
        return true;
      }
      if cp in database.chargePoints && !f.read {
        chargePoints := chargePoints + {cp};
        InitializeChargePoints({cp}, order, f);
        found := true;
        ghost var was := old(State()).(chargePoints := old(chargePoints) + {cp});
        LoadConnectorsFinds(old(database.history), was, {cp}, order, f);
      } else if acceptPoints && cp != "" {
        database.AddChargePoint(cp, f.connector);
        chargePoints := chargePoints + {cp};
        found := true;
      } else {
        found := false;
      }
    }

    method GetConnector(p: Place, f: Faults) returns (connector: Connector)
      requires database.Valid()
      modifies this`connectors, database
      ensures database.Valid()
      ensures Held(connector, database.history, State()) == Sessions.GetConnector(old(database.history), old(State()), p, f)
    {
      if p in connectors {
        return connectors[p];
      }
      if p in database.connectors && !f.read {
        connector := database.connectors[p];
        connectors := connectors[p := connector];
      } else {
        connector := FREE;
        connectors := connectors[p := connector];
        database.AddConnector(p, connector, f.connector);
      }
    }

    method OnStartTransaction(r: StartRequest, order: seq<Place>, f: Faults) returns (reply: Reply)
      requires database.Valid()
      modifies this, database
      ensures database.Valid()
      ensures Outcome(database.history, State(), reply) == StartTransaction(old(database.history), old(State()), order, r, f)
    {
      var found := GetChargePoint(r.place.chargePoint, order, f);
      if !found {
        return Blocked;
      }
      var connector := GetConnector(r.place, f);
      if connector.currentTransactionId >= 0 {
        var transaction := database.GetTransaction(connector.currentTransactionId, f.read);
        match transaction {
          case Unreadable =>
            // starting now could overwrite the pointer of a session that is still running
            return Blocked;
          case Found(t) =>
            if !t.finished && t.place.number == r.place.number {
              return Accepted(connector.currentTransactionId);
            }
            if t.finished {
              connectors := connectors[r.place := FREE];
              database.UpdateConnector(r.place, FREE, f.connector);
            } else {
              return ConcurrentTx(connector.currentTransactionId);
            }
          case NotFound =>
        }
      }
      reply := OpenTransaction(r, f);
    }

    /** The new session: its row, then the pointer at it. */
    method OpenTransaction(r: StartRequest, f: Faults) returns (reply: Reply)
      requires database.Valid()
      modifies this, database
      ensures database.Valid()
      ensures Outcome(database.history, State(), reply) == StartFresh(old(database.history), old(State()), r, f)
    {
      var t := NewTransaction(newTransactionId, r);
      newTransactionId := newTransactionId + 1;
      connectors := connectors[r.place := Connector(t.id, 0)];
      database.AddTransaction(t, f.addTransaction);
      database.UpdateConnector(r.place, Connector(t.id, 0), f.connector);
      reply := Accepted(t.id);
    }

    /** The document of a stopped transaction: the stop's figures, its boundary values, the bill. */
    method Stopped(t: Transaction, r: StopRequest) returns (closed: Transaction)
      ensures closed == StopFigures(t, r)
    {
      var doc := new Billing.TransactionDoc.Decode(t);
      doc.finished, doc.timeStop, doc.meterStop, doc.reason := true, r.time, r.meterStop, r.reason;
      ApplyTransactionData(doc, r.boundaries);
      billing.OnTransactionFinished(doc);
      closed := doc.Value();
    }

    method OnStopTransaction(r: StopRequest, order: seq<Place>, f: Faults)
      requires database.Valid()
      modifies this, database
      ensures database.Valid()
      ensures Outcome(database.history, State(), Confirmed) == StopTransaction(old(database.history), old(State()), order, r, f)
    {
      var found := GetChargePoint(r.chargePoint, order, f);
      if !found {
        return;
      }
      var stored := database.GetTransaction(r.id, f.read);
      if !stored.Found? {
        return;
      }
      var t := stored.value;
      var p := Place(r.chargePoint, t.place.number);
      var connector := GetConnector(p, f);
      if t.finished && t.meterStop >= r.meterStop {
        FreeConnector(p, f);
        return;
      }
      var closed := Stopped(t, r);
      database.UpdateTransaction(closed, f.updateTransaction);
      if !f.updateTransaction {
        database.DeleteTransactionMeterValues(closed.id, f.samples);
      }
      FreeConnector(p, f);
    }

    /** Boundary values of a stop override the figures already set, the last one of a kind winning. */
    method ApplyTransactionData(doc: Billing.TransactionDoc, boundaries: seq<Boundary>)
      modifies doc
      ensures doc.Value() == ApplyBoundaries(old(doc.Value()), boundaries)
    {
      var i := 0;
      while i < |boundaries|
        invariant 0 <= i <= |boundaries|
        invariant ApplyBoundaries(doc.Value(), boundaries[i..]) == ApplyBoundaries(old(doc.Value()), boundaries)
      {
        ghost var rest := boundaries[i..];
        assert rest[1..] == boundaries[i + 1..];
        match boundaries[i] {
          case Begin(value, time) => doc.meterStart, doc.timeStart := value, time;
          case End(value, time) => doc.meterStop, doc.timeStop := value, time;
        }
        i := i + 1;
      }
    }

    method FreeConnector(p: Place, f: Faults)
      requires database.Valid()
      modifies this`connectors, database
      ensures database.Valid()
      ensures Located(true, database.history, State()) == PutConnector(old(database.history), old(State()), p, FREE, f)
    {
      connectors := connectors[p := FREE];
      database.UpdateConnector(p, FREE, f.connector);
    }

    method OnMeterValues(r: MeterRequest, order: seq<Place>, f: Faults)
      requires database.Valid()
      modifies this, database
      ensures database.Valid()
      ensures Outcome(database.history, State(), Confirmed) == MeterValues(old(database.history), old(State()), order, r, f)
    {
      var found := GetChargePoint(r.place.chargePoint, order, f);
      if !found {
        return;
      }
      var connector := GetConnector(r.place, f);
      var id := r.id;
      if id == None && r.place.number > 0 && connector.currentTransactionId >= 0 {
        id := Some(connector.currentTransactionId);
      }
      if id == None {
        return;
      }
      var transaction := database.GetTransaction(id.value, f.read);
      if !transaction.Found? {
        return;
      }
      SaveReadings(transaction.value, r.readings, f);
    }

    method SaveReadings(t: Transaction, readings: seq<Reading>, f: Faults)
      requires database.Valid()
      modifies database
      ensures database.Valid()
      ensures database.history == RecordReadings(old(database.history), t, readings, f)
    {
      var i := 0;
      while i < |readings|
        invariant 0 <= i <= |readings| && database.Valid()
        invariant RecordReadings(database.history, t, readings[i..], f) == RecordReadings(old(database.history), t, readings, f)
      {
        ghost var rest := readings[i..];
        assert rest[1..] == readings[i + 1..];
        var x := readings[i];
        if x.value > 0 {
          var price := billing.OnMeterValue(t, x.time, x.value);
          database.AddTransactionMeterValue(t.id, Sample(x.time, x.value, price), f.samples);
        }
        i := i + 1;
      }
    }

    method OnStatusNotification(p: Place, order: seq<Place>, f: Faults)
      requires database.Valid()
      modifies this, database
      ensures database.Valid()
      ensures Outcome(database.history, State(), Confirmed) == StatusNotification(old(database.history), old(State()), order, p, f)
    {
      var found := GetChargePoint(p.chargePoint, order, f);
      if !found || p.number <= 0 {
        return;
      }
      var connector := GetConnector(p, f);
      connectors := connectors[p := connector];
      database.UpdateConnector(p, connector, f.connector);
    }

    /** The document of an abandoned transaction: closed at its newest sample and billed, or, without
        one, aborted where it started. */
    method Swept(t: Transaction, newest: Option<Sample>) returns (closed: Transaction)
      ensures closed == SweepFigures(t, newest)
    {
      var doc := new Billing.TransactionDoc.Decode(t);
      doc.finished := true;
      if newest != None {
        doc.meterStop, doc.timeStop, doc.reason := newest.value.value, newest.value.time, STOPPED_BY_SYSTEM;
        billing.OnTransactionFinished(doc);
      } else {
        doc.timeStop, doc.reason := doc.timeStart, ABORTED_BY_SYSTEM;
      }
      closed := doc.Value();
    }

    method FinishAbandonedTransaction(t: Transaction, order: seq<Place>, f: Faults) returns (found: bool)
      requires database.Valid()
      modifies this, database
      ensures database.Valid()
      ensures Located(found, database.history, State()) == FinishAbandoned(old(database.history), old(State()), order, t, f)
    {
      var newest := database.ReadTransactionMeterValue(t.id, f.read);
      var closed := Swept(t, newest);
      database.UpdateTransaction(closed, f.updateTransaction);
      found := ReleaseConnector(t, order, f);
      database.DeleteTransactionMeterValues(t.id, f.samples);
    }

    /** The part under the handler lock. */
    method ReleaseConnector(t: Transaction, order: seq<Place>, f: Faults) returns (found: bool)
      requires database.Valid()
      modifies this, database
      ensures database.Valid()
      ensures Located(found, database.history, State()) == ReleaseSwept(old(database.history), old(State()), order, t, f)
    {
      found := GetChargePoint(t.place.chargePoint, order, f);
      if found {
        var connector := GetConnector(t.place, f);
        if connector.currentTransactionId == t.id {
          FreeConnector(t.place, f);
        }
      }
    }

    /** One pass of the sweep: the selection is made, and each selected transaction is closed in turn.
        A selection that cannot be read closes nothing. */
    method CheckAndFinishTransactions(now: int, order: seq<Place>, fails: bool, faults: int -> Faults) returns (swept: seq<Swept>)
      requires database.Valid() && database.State().WellKeyed()
      modifies this, database
      ensures database.Valid()
      ensures if fails then swept == [] else Selects(swept, old(database.State()), now - STALE_AFTER, now - RELEASE_GRACE)
      ensures (database.history, State())
           == (Pass(old(database.history), old(State()), order, Rows(swept), faults).history,
               Pass(old(database.history), old(State()), order, Rows(swept), faults).memory)
    {
      if fails {
        swept := [];
        assert Rows(swept) == [];
        return;
      }
      swept := GetUnfinishedTransactions(database, now - STALE_AFTER, now - RELEASE_GRACE);
      FinishAll(Rows(swept), order, faults);
    }

    method FinishAll(list: seq<Transaction>, order: seq<Place>, faults: int -> Faults)
      requires database.Valid()
      modifies this, database
      ensures database.Valid()
      ensures (database.history, State())
           == (Pass(old(database.history), old(State()), order, list, faults).history,
               Pass(old(database.history), old(State()), order, list, faults).memory)
    {
      var i := 0;
      while i < |list|
        invariant 0 <= i <= |list| && database.Valid()
        invariant Pass(database.history, State(), order, list[i..], faults) == Pass(old(database.history), old(State()), order, list, faults)
      {
        ghost var rest := list[i..];
        assert rest[1..] == list[i + 1..];
        var _ := FinishAbandonedTransaction(list[i], order, faults(list[i].id));
        i := i + 1;
      }
    }

    /** Closing what a rebooted charge point left open. The samples are looked at before anything is
        closed, which comes to the same: closing a transaction deletes only its own. */
    method ReconcileChargePointTransactions(cp: string, now: int, order: seq<Place>, fails: bool, faults: int -> Faults)
      returns (list: seq<Transaction>)
      requires database.Valid() && database.State().WellKeyed()
      modifies this, database
      ensures database.Valid() && DistinctIds(list)
      ensures forall t :: t in list ==> t.id in old(database.transactions) && old(database.transactions)[t.id] == t
      ensures if fails then list == [] else Ids(list) == LeftOpenByReboot(old(database.State()), cp, now, faults)
      ensures (database.history, State())
           == (Pass(old(database.history), old(State()), order, list, faults).history,
               Pass(old(database.history), old(State()), order, list, faults).memory)
    {
      if fails {
        return [];
      }
      list := LeftOpen(cp, now, faults);
      FinishAll(list, order, faults);
    }

    /** Those of its open transactions whose newest sample cannot be read or is not recent. */
    method LeftOpen(cp: string, now: int, faults: int -> Faults) returns (list: seq<Transaction>)
      requires database.State().WellKeyed()
      ensures DistinctIds(list)
      ensures forall t :: t in list ==> t.id in database.transactions && database.transactions[t.id] == t
      ensures Ids(list) == LeftOpenByReboot(database.State(), cp, now, faults)
    {
      var ts := database.ListTransactions();
      list := [];
      var i := 0;
      while i < |ts|
        invariant 0 <= i <= |ts|
        invariant forall t :: t in list <==> t in ts[..i] && t.place.chargePoint == cp && !t.finished
                                             && !StillReporting(if faults(t.id).read then None else Newest(database.State().SamplesOf(t.id)), now)
        invariant DistinctIds(list)
      {
        var t := ts[i];
        assert ts[..i + 1] == ts[..i] + [t];
        if t.place.chargePoint == cp && !t.finished {
          var newest := database.ReadTransactionMeterValue(t.id, faults(t.id).read);
          if newest == None || newest.value.time <= now - RELEASE_GRACE {
            list := list + [t];
          }
        }
        i := i + 1;
      }
      assert ts[..i] == ts;
      forall j | j in LeftOpenByReboot(database.State(), cp, now, faults) ensures j in Ids(list) {
        assert database.transactions[j] in ts && database.transactions[j] in list;
      }
    }
  }

  lemma LoadConnectorsFinds(h: History, m: Memory, cps: set<string>, order: seq<Place>, f: Faults)
    ensures LoadConnectors(h, m, cps, order, f).found
    decreases |order|
  {
    if order != [] {
      if order[0].chargePoint !in cps {
        LoadConnectorsFinds(h, m, cps, order[1..], f);
      } else {
        var l := LoadConnector(h, m, order[0], f);
        LoadConnectorsFinds(l.history, l.memory, cps, order[1..], f);
      }
    }
  }

  /** Reads the three collections and runs the aggregation over them. */
  method GetUnfinishedTransactions(database: Database, staleBefore: int, releasedBefore: int) returns (swept: seq<Swept>)
    requires database.State().WellKeyed()
    ensures Selects(swept, database.State(), staleBefore, releasedBefore)
  {
    var ts := database.ListTransactions();
    var places := database.ListConnectors();
    var stored := database.connectors;
    var cs := seq(|places|, i requires 0 <= i < |places| && places[i] in stored => ConnectorDoc(places[i], stored[places[i]]));
    var ms := ListMeterDocs(database);
    assert ListsConnectorDocs(cs, database.State()) by {
      forall p | p in database.connectors ensures ConnectorDoc(p, database.connectors[p]) in cs {
        var k :| 0 <= k < |places| && places[k] == p;
        assert cs[k] == ConnectorDoc(p, database.connectors[p]);
      }
    }
    PipelineRefines(ts, cs, ms, database.State(), staleBefore, releasedBefore);
    swept := Pipeline(ts, cs, ms, staleBefore, releasedBefore);
  }

  method ListMeterDocs(database: Database) returns (ms: seq<MeterDoc>)
    ensures ListsMeterDocs(ms, database.State())
  {
    ms := [];
    var rest := database.samples.Keys;
    while rest != {}
      invariant rest <= database.samples.Keys
      invariant forall d :: d in ms <==> d.id !in rest && d.sample in database.State().SamplesOf(d.id)
      decreases rest
    {
      var id := Pick(rest);
      rest := rest - {id};
      var group := database.samples[id];
      var docs := seq(|group|, i requires 0 <= i < |group| => MeterDoc(id, group[i]));
      forall d ensures d in docs <==> d.id == id && d.sample in group {
        if d.id == id && d.sample in group {
          var k :| 0 <= k < |group| && group[k] == d.sample;
          assert docs[k] == d;
        }
      }
      ms := ms + docs;
    }
  }
}
