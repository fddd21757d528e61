/** One pass of the sweep with nothing running in between (server/system_handler.go,
    checkAndFinishTransactions), and the same close used after a reboot. */
module SweepPass {
  import opened Billing
  import opened Domain
  import opened Persistence
  import opened Sessions
  import opened Loading
  import opened Selection
  import opened Pointers
  import opened Safety
  import opened Ledger

  /** One transaction after the other; the operations of each may fail in their own way. */
  ghost function Pass(h: History, m: Memory, order: seq<Place>, list: seq<Transaction>, faults: int -> Faults): Located
    decreases |list|
  {
    if list == [] then Located(true, h, m)
    else
      var l := FinishAbandoned(h, m, order, list[0], faults(list[0].id));
      Pass(l.history, l.memory, order, list[1..], faults)
  }

  /** Nothing fails while these transactions are closed. */
  predicate Unfailing(list: seq<Transaction>, faults: int -> Faults) {
    forall t :: t in list ==> faults(t.id) == NO_FAULTS
  }

  function Left(c: Connector, done: set<int>): Connector {
    if c.currentTransactionId in done then FREE else c
  }

  /** The state after some transactions of a pass have been closed, in terms of the state the pass
      began in. */
  ghost predicate After(s: Store, m: Memory, s': Store, m': Memory, done: set<int>) {
    && RowsAfter(s, s', done) && PlacesAfter(s, m, s', done) && PointsAfter(s, m, s', done)
    && (forall cp :: Known(s', m', cp) <==> Known(s, m, cp))
    && Remembers(m, m', done)
  }

  /** Closed rows carry the sweep's figures and have lost their samples; the others are as they were. */
  ghost predicate RowsAfter(s: Store, s': Store, done: set<int>) {
    && s'.transactions.Keys == s.transactions.Keys
    && (forall i :: i in s.transactions ==>
          && s'.transactions[i] == (if i in done then SweepFigures(s.transactions[i], Newest(s.SamplesOf(i))) else s.transactions[i])
          && s'.SamplesOf(i) == (if i in done then [] else s.SamplesOf(i)))
  }

  /** Connectors that held a closed row are free; missing connectors of closed rows were created. */
  ghost predicate PlacesAfter(s: Store, m: Memory, s': Store, done: set<int>) {
    && (forall p :: p in s.connectors ==> p in s'.connectors && s'.connectors[p] == Left(s.connectors[p], done))
    && (forall p :: p in s'.connectors && p !in s.connectors ==> s'.connectors[p] == FREE)
    && (forall p :: p in s'.connectors <==>
          p in s.connectors || exists i :: i in done && i in s.transactions && s.transactions[i].place == p && Known(s, m, p.chargePoint))
  }

  /** Charge points stay; unknown ones of closed rows were registered, if that is allowed. */
  ghost predicate PointsAfter(s: Store, m: Memory, s': Store, done: set<int>) {
    && (forall cp :: cp in s.chargePoints ==> cp in s'.chargePoints && s'.chargePoints[cp] == s.chargePoints[cp])
    && (forall cp :: cp in s'.chargePoints && cp !in s.chargePoints ==>
          m.acceptPoints && exists i :: i in done && i in s.transactions && s.transactions[i].place.chargePoint == cp)
  }

  /** Memory keeps the counter, the charge points and their connectors, but for the freed ones. */
  ghost predicate Remembers(m: Memory, m': Memory, done: set<int>) {
    && m'.nextId == m.nextId && m'.acceptPoints == m.acceptPoints && m.chargePoints <= m'.chargePoints
    && (forall p :: p in m.connectors && p.chargePoint in m.chargePoints ==>
          p in m'.connectors && m'.connectors[p] == Left(m.connectors[p], done))
  }

  /** Where the locked release leaves connectors, charge points and memory. */
  ghost predicate Released(s: Store, m: Memory, s': Store, m': Memory, t: Transaction) {
    && s'.transactions == s.transactions && s'.samples == s.samples
    && (forall p :: p in s.connectors ==> p in s'.connectors && s'.connectors[p] == Left(s.connectors[p], {t.id}))
    && (forall p :: p in s'.connectors <==> p in s.connectors || (p == t.place && Known(s, m, p.chargePoint)))
    && (forall p :: p in s'.connectors && p !in s.connectors ==> s'.connectors[p] == FREE)
    && PointsKept(s, m, s', t.place.chargePoint)
    && (forall cp :: Known(s', m', cp) <==> Known(s, m, cp))
    && Remembers(m, m', {t.id})
  }

  lemma ReleaseShape(h: History, m: Memory, order: seq<Place>, t: Transaction)
    requires Calm(h, m, {t.id}) && t.id in Now(h).transactions && Now(h).transactions[t.id].place == t.place
    ensures var l := ReleaseSwept(h, m, order, t, NO_FAULTS); Released(Now(h), m, Now(l.history), l.memory, t)
  {
    var s := Now(h);
    var l := ReleaseSwept(h, m, order, t, NO_FAULTS);
    var s' := Now(l.history);
    ReleaseEffect(h, m, order, t, NO_FAULTS, {t.id}, {});
    ReleaseKeepsPoints(h, m, order, t);
    ReleaseKeepsPlaces(h, m, order, t);
    ReleaseKeepsMemory(h, m, order, t);
    forall p | p in s.connectors ensures s'.connectors[p] == Left(s.connectors[p], {t.id}) {
      assert !PointsTo(s', p, t.id);
    }
    forall p | p in m.connectors && p.chargePoint in m.chargePoints
      ensures p in l.memory.connectors && l.memory.connectors[p] == Left(m.connectors[p], {t.id})
    {
      assert !PointsTo(s', p, t.id);
    }
  }

  lemma ReleaseKeepsPoints(h: History, m: Memory, order: seq<Place>, t: Transaction)
    ensures var l := ReleaseSwept(h, m, order, t, NO_FAULTS);
            && (forall cp :: Known(Now(l.history), l.memory, cp) <==> Known(Now(h), m, cp))
            && PointsKept(Now(h), m, Now(l.history), t.place.chargePoint)
  {
    LookUpKeepsKnown(h, m, t.place.chargePoint, order);
    LookUpKeepsPoints(h, m, t.place.chargePoint, order);
    ReleaseKeepsLookedUp(h, m, order, t);
  }

  lemma ReleaseKeepsLookedUp(h: History, m: Memory, order: seq<Place>, t: Transaction)
    ensures var l, r := GetChargePoint(h, m, t.place.chargePoint, order, NO_FAULTS), ReleaseSwept(h, m, order, t, NO_FAULTS);
            && Now(r.history).chargePoints == Now(l.history).chargePoints
            && r.memory.chargePoints == l.memory.chargePoints && r.memory.acceptPoints == l.memory.acceptPoints
  {
    var l := GetChargePoint(h, m, t.place.chargePoint, order, NO_FAULTS);
    FreeKeepsPoints(l.history, l.memory, t);
  }

  lemma FreeKeepsPoints(h: History, m: Memory, t: Transaction)
    ensures var g := GetConnector(h, m, t.place, NO_FAULTS);
            var u := PutConnector(g.history, g.memory, t.place, FREE, NO_FAULTS);
            && Now(g.history).chargePoints == Now(u.history).chargePoints == Now(h).chargePoints
            && g.memory.chargePoints == u.memory.chargePoints == m.chargePoints
            && g.memory.acceptPoints == u.memory.acceptPoints == m.acceptPoints
  {
  }

  lemma LookUpKeepsKnown(h: History, m: Memory, cp: string, order: seq<Place>)
    ensures var l := GetChargePoint(h, m, cp, order, NO_FAULTS);
            forall other :: Known(Now(l.history), l.memory, other) <==> Known(Now(h), m, other)
  {
    GetChargePointExactly(h, m, cp, order, NO_FAULTS);
  }

  /** Charge points stay, and none is added but one, if unknown ones are accepted. */
  ghost predicate PointsKept(s: Store, m: Memory, s': Store, added: string) {
    && (forall cp :: cp in s.chargePoints ==> cp in s'.chargePoints && s'.chargePoints[cp] == s.chargePoints[cp])
    && (forall cp :: cp in s'.chargePoints && cp !in s.chargePoints ==> cp == added && m.acceptPoints)
  }

  lemma LookUpKeepsPoints(h: History, m: Memory, cp: string, order: seq<Place>)
    ensures PointsKept(Now(h), m, Now(GetChargePoint(h, m, cp, order, NO_FAULTS).history), cp)
  {
    LoadConnectorsExactly(h, m.(chargePoints := m.chargePoints + {cp}), {cp}, order, NO_FAULTS);
  }

  /** Connectors stay as they are, but for one that holds a certain transaction, which may be freed. */
  ghost predicate KeptBut(a: map<Place, Connector>, b: map<Place, Connector>, id: int) {
    forall p :: p in a ==> p in b && (b[p] == a[p] || (a[p].currentTransactionId == id && b[p] == FREE))
  }

  lemma LoadKeepsPointers(h: History, m: Memory, cp: string, order: seq<Place>, id: int)
    requires Calm(h, m, {id})
    ensures var s' := Now(GetChargePoint(h, m, cp, order, NO_FAULTS).history);
            KeptBut(Now(h).connectors, s'.connectors, id) && s'.connectors.Keys == Now(h).connectors.Keys && s'.samples == Now(h).samples
  {
    GetChargePointExactly(h, m, cp, order, NO_FAULTS);
  }

  lemma ReleaseKeepsPlaces(h: History, m: Memory, order: seq<Place>, t: Transaction)
    requires Calm(h, m, {t.id}) && t.id in Now(h).transactions
    ensures var l := ReleaseSwept(h, m, order, t, NO_FAULTS);
            var s, s' := Now(h), Now(l.history);
            && s'.samples == s.samples && KeptBut(s.connectors, s'.connectors, t.id)
            && (forall p :: p in s'.connectors <==> p in s.connectors || (p == t.place && Known(s, m, p.chargePoint)))
            && (forall p :: p in s'.connectors && p !in s.connectors ==> s'.connectors[p] == FREE)
  {
    var l := GetChargePoint(h, m, t.place.chargePoint, order, NO_FAULTS);
    LoadKeepsPointers(h, m, t.place.chargePoint, order, t.id);
    GetChargePointCalm(h, m, t.place.chargePoint, order, NO_FAULTS, {t.id});
    if l.found {
      CreatedFree(l.history, l.memory, t);
    }
  }

  lemma CreatedFree(h: History, m: Memory, t: Transaction)
    requires Synced(Now(h), m)
    ensures var g := GetConnector(h, m, t.place, NO_FAULTS);
            var s' := Now(g.history);
            && s'.samples == Now(h).samples
            && s'.connectors == (if t.place in Now(h).connectors then Now(h).connectors else Now(h).connectors[t.place := FREE])
            && (t.place in Now(h).connectors ==>
                  Agree(s'.connectors[t.place].currentTransactionId, g.connector.currentTransactionId))
  {
  }

  lemma ReleaseKeepsMemory(h: History, m: Memory, order: seq<Place>, t: Transaction)
    requires Calm(h, m, {t.id})
    ensures MemoryKept(m, ReleaseSwept(h, m, order, t, NO_FAULTS).memory, t.id)
  {
    LookUpKeepsMemory(h, m, t.place.chargePoint, order, t.id);
    var l := GetChargePoint(h, m, t.place.chargePoint, order, NO_FAULTS);
    var g := GetConnector(l.history, l.memory, t.place, NO_FAULTS);
    assert MemoryKept(l.memory, g.memory, t.id);
    assert g.connector == g.memory.connectors[t.place];
  }

  ghost predicate MemoryKept(m: Memory, m': Memory, id: int) {
    && m'.nextId == m.nextId && m'.acceptPoints == m.acceptPoints && m.chargePoints <= m'.chargePoints
    && (forall p :: p in m.connectors && p.chargePoint in m.chargePoints ==>
          && p in m'.connectors
          && (m'.connectors[p] == m.connectors[p] || (m.connectors[p].currentTransactionId == id && m'.connectors[p] == FREE)))
  }

  lemma LookUpKeepsMemory(h: History, m: Memory, cp: string, order: seq<Place>, id: int)
    ensures MemoryKept(m, GetChargePoint(h, m, cp, order, NO_FAULTS).memory, id)
  {
    GetChargePointExactly(h, m, cp, order, NO_FAULTS);
  }

  /** Closing one abandoned transaction. */
  lemma FinishEffect(h: History, m: Memory, order: seq<Place>, t: Transaction)
    requires Calm(h, m, {}) && t.id in Now(h).transactions && Now(h).transactions[t.id] == t && !t.finished
    ensures var l := FinishAbandoned(h, m, order, t, NO_FAULTS);
            Calm(l.history, l.memory, {}) && After(Now(h), m, Now(l.history), l.memory, {t.id})
  {
    var s := Now(h);
    var closed := SweepFigures(t, Newest(s.SamplesOf(t.id)));
    var h1 := h + [s.UpdateTransaction(closed)];
    ClosedCalm(h, m, closed);
    ReleaseShape(h1, m, order, closed);
    ReleaseEffect(h1, m, order, closed, NO_FAULTS, {t.id}, {});
    var l := ReleaseSwept(h1, m, order, closed, NO_FAULTS);
    ReleasedAfter(s, m, closed, Now(l.history), l.memory);
    DeletedCalm(l.history, l.memory, t.id);
  }

  lemma ClosedCalm(h: History, m: Memory, t: Transaction)
    requires Calm(h, m, {}) && t.id in Now(h).transactions && Now(h).transactions[t.id].place == t.place && t.finished
    ensures Calm(h + [Now(h).UpdateTransaction(t)], m, {t.id})
  {
  }

  lemma DeletedCalm(h: History, m: Memory, id: int)
    requires Calm(h, m, {})
    ensures Calm(h + [Now(h).DeleteSamples(id)], m, {})
  {
  }

  lemma ReleasedAfter(s: Store, m: Memory, closed: Transaction, s': Store, m': Memory)
    requires closed.id in s.transactions && s.transactions[closed.id].place == closed.place
    requires closed == SweepFigures(s.transactions[closed.id], Newest(s.SamplesOf(closed.id)))
    requires Released(s.UpdateTransaction(closed), m, s', m', closed)
    ensures After(s, m, s'.DeleteSamples(closed.id), m', {closed.id})
  {
    var s1 := s.UpdateTransaction(closed);
    assert forall cp :: Known(s1, m, cp) <==> Known(s, m, cp);
    assert forall cp :: Known(s'.DeleteSamples(closed.id), m', cp) <==> Known(s', m', cp);
  }

  lemma AfterTrans(s: Store, m: Memory, s1: Store, m1: Memory, s2: Store, m2: Memory, a: set<int>, b: set<int>)
    requires After(s, m, s1, m1, a) && After(s1, m1, s2, m2, b) && a !! b && a + b <= s.transactions.Keys && Anchors(s)
    ensures After(s, m, s2, m2, a + b)
  {
    assert RowsAfter(s, s2, a + b);
    forall i | i in s.transactions ensures s1.transactions[i].place == s.transactions[i].place {}
    PlacesTrans(s, m, s1, m1, s2, a, b);
    PointsTrans(s, m, s1, m1, s2, a, b);
    assert Remembers(m, m2, a + b);
  }

  lemma PlacesTrans(s: Store, m: Memory, s1: Store, m1: Memory, s2: Store, a: set<int>, b: set<int>)
    requires PlacesAfter(s, m, s1, a) && PlacesAfter(s1, m1, s2, b)
    requires s1.transactions.Keys == s.transactions.Keys
    requires forall i :: i in s.transactions ==> s1.transactions[i].place == s.transactions[i].place
    requires forall cp :: Known(s1, m1, cp) <==> Known(s, m, cp)
    ensures PlacesAfter(s, m, s2, a + b)
  {
  }

  lemma PointsTrans(s: Store, m: Memory, s1: Store, m1: Memory, s2: Store, a: set<int>, b: set<int>)
    requires PointsAfter(s, m, s1, a) && PointsAfter(s1, m1, s2, b) && m1.acceptPoints == m.acceptPoints
    requires s1.transactions.Keys == s.transactions.Keys
    requires forall i :: i in s.transactions ==> s1.transactions[i].place == s.transactions[i].place
    ensures PointsAfter(s, m, s2, a + b)
  {
  }

  function Ids(list: seq<Transaction>): set<int> {
    set t | t in list :: t.id
  }

  /** A pass over distinct open transactions closes exactly those: their rows get the sweep's
      figures, their samples go, their connectors are freed, and everything else stays. */
  lemma {:induction false} PassEffect(h: History, m: Memory, order: seq<Place>, list: seq<Transaction>, faults: int -> Faults)
    requires Calm(h, m, {}) && DistinctIds(list) && Unfailing(list, faults)
    requires forall t :: t in list ==> t.id in Now(h).transactions && Now(h).transactions[t.id] == t && !t.finished
    ensures var l := Pass(h, m, order, list, faults);
            Calm(l.history, l.memory, {}) && After(Now(h), m, Now(l.history), l.memory, Ids(list))
    decreases |list|
  {
    if list == [] {
      assert Ids(list) == {};
    } else {
      var t := list[0];
      assert t in list && faults(t.id) == NO_FAULTS;
      var l := FinishAbandoned(h, m, order, t, NO_FAULTS);
      FinishEffect(h, m, order, t);
      AfterTail(Now(h), m, Now(l.history), l.memory, list);
      PassEffect(l.history, l.memory, order, list[1..], faults);
      IdsSplit(list);
      var r := Pass(l.history, l.memory, order, list[1..], faults);
      AfterTrans(Now(h), m, Now(l.history), l.memory, Now(r.history), r.memory, {t.id}, Ids(list[1..]));
    }
  }

  lemma AfterTail(s: Store, m: Memory, s': Store, m': Memory, list: seq<Transaction>)
    requires list != [] && DistinctIds(list) && After(s, m, s', m', {list[0].id})
    requires forall t :: t in list ==> t.id in s.transactions && s.transactions[t.id] == t && !t.finished
    ensures DistinctIds(list[1..])
    ensures forall u :: u in list[1..] ==> u.id in s'.transactions && s'.transactions[u.id] == u && !u.finished
  {
    forall u | u in list[1..] ensures u in list && u.id != list[0].id {
      var k :| 0 <= k < |list[1..]| && list[1..][k] == u;
      assert list[k + 1] == u;
    }
  }

  lemma IdsSplit(list: seq<Transaction>)
    requires list != [] && DistinctIds(list)
    ensures Ids(list) == {list[0].id} + Ids(list[1..]) && {list[0].id} !! Ids(list[1..])
  {
    assert list == [list[0]] + list[1..];
    forall u | u in list[1..] ensures u.id != list[0].id {
      var k :| 0 <= k < |list[1..]| && list[1..][k] == u;
      assert list[k + 1] == u;
    }
  }

  // ---------- what one sweep leaves ----------

  function Rows(out: seq<Swept>): seq<Transaction> {
    seq(|out|, i requires 0 <= i < |out| => out[i].t)
  }

  ghost function AbandonedIds(s: Store, now: int): set<int> {
    set i | i in s.transactions && AbandonedAt(s, s.transactions[i], now)
  }

  /** Creating a missing connector while one of its transactions is closed shows another open
      transaction of that connector as moved on. */
  ghost predicate Revealed(s: Store, m: Memory, i: int, now: int) {
    && i in s.transactions && !AbandonedAt(s, s.transactions[i], now)
    && var t := s.transactions[i];
       && !t.finished && t.place !in s.connectors && Quiet(s, t, now - RELEASE_GRACE)
       && Known(s, m, t.place.chargePoint)
       && exists j :: j in AbandonedIds(s, now) && s.transactions[j].place == t.place
  }

  /** A sweep at an instant closes exactly the abandoned transactions, frees exactly the connectors
      that held them, and changes nothing else; a second sweep at the same instant would take up
      exactly the revealed transactions. */
  lemma SweepEffect(s: Store, m: Memory, order: seq<Place>, out: seq<Swept>, faults: int -> Faults, now: int)
    requires Calm([s], m, {}) && Unfailing(Rows(out), faults)
    requires Selects(out, s, now - STALE_AFTER, now - RELEASE_GRACE)
    ensures var l := Pass([s], m, order, Rows(out), faults);
            var s' := Now(l.history);
            && Calm(l.history, l.memory, {})
            && After(s, m, s', l.memory, AbandonedIds(s, now))
            && (forall i :: i in s'.transactions ==> (AbandonedAt(s', s'.transactions[i], now) <==> Revealed(s, m, i, now)))
  {
    var list := Rows(out);
    forall i | i in AbandonedIds(s, now) ensures i in Ids(list) {
      var x :| x in out && x.t == s.transactions[i];
      var k :| 0 <= k < |out| && out[k] == x;
      assert list[k] in list;
    }
    assert Ids(list) == AbandonedIds(s, now);
    PassEffect([s], m, order, list, faults);
    var l := Pass([s], m, order, list, faults);
    var s' := Now(l.history);
    forall i | i in s'.transactions
      ensures AbandonedAt(s', s'.transactions[i], now) <==> Revealed(s, m, i, now)
    {
      SecondLook(s, m, s', l.memory, i, now);
    }
  }

  lemma SecondLook(s: Store, m: Memory, s': Store, m': Memory, i: int, now: int)
    requires Anchors(s) && After(s, m, s', m', AbandonedIds(s, now)) && i in s.transactions
    ensures AbandonedAt(s', s'.transactions[i], now) <==> Revealed(s, m, i, now)
  {
    var t := s.transactions[i];
    if i !in AbandonedIds(s, now) {
      assert s'.transactions[i] == t && s'.SamplesOf(i) == s.SamplesOf(i);
      assert Quiet(s', t, now - STALE_AFTER) <==> Quiet(s, t, now - STALE_AFTER);
      assert Quiet(s', t, now - RELEASE_GRACE) <==> Quiet(s, t, now - RELEASE_GRACE);
    }
  }

  /** The connectors of all open transactions are stored. */
  ghost predicate OpenOnesStored(s: Store) {
    forall i :: i in s.transactions && !s.transactions[i].finished ==> s.transactions[i].place in s.connectors
  }

  /** Where the connector of every open transaction is stored, one pass is enough: afterwards every
      open transaction has a start or a sample within the last twenty minutes - within the last two
      if its connector does not hold it - and sweeping again finds nothing. */
  lemma SweepSettles(s: Store, m: Memory, order: seq<Place>, out: seq<Swept>, faults: int -> Faults, now: int)
    requires Calm([s], m, {}) && OpenOnesStored(s) && Unfailing(Rows(out), faults)
    requires Selects(out, s, now - STALE_AFTER, now - RELEASE_GRACE)
    ensures var s' := Now(Pass([s], m, order, Rows(out), faults).history);
            && AbandonedIds(s', now) == {}
            && (OneOpen(s) ==> OneOpen(s'))
            && forall i :: i in s'.transactions && !s'.transactions[i].finished ==>
                 && !Quiet(s', s'.transactions[i], now - STALE_AFTER)
                 && (MovedOn(s', s'.transactions[i]) ==> !Quiet(s', s'.transactions[i], now - RELEASE_GRACE))
  {
    SweepEffect(s, m, order, out, faults, now);
    var l := Pass([s], m, order, Rows(out), faults);
    AfterSettles(s, m, Now(l.history), l.memory, now);
  }

  lemma AfterSettles(s: Store, m: Memory, s': Store, m': Memory, now: int)
    requires After(s, m, s', m', AbandonedIds(s, now)) && OpenOnesStored(s)
    requires forall i :: i in s'.transactions ==> (AbandonedAt(s', s'.transactions[i], now) <==> Revealed(s, m, i, now))
    ensures AbandonedIds(s', now) == {} && (OneOpen(s) ==> OneOpen(s'))
    ensures forall i :: i in s'.transactions && !s'.transactions[i].finished ==>
              && !Quiet(s', s'.transactions[i], now - STALE_AFTER)
              && (MovedOn(s', s'.transactions[i]) ==> !Quiet(s', s'.transactions[i], now - RELEASE_GRACE))
  {
    forall i | i in s'.transactions ensures !AbandonedAt(s', s'.transactions[i], now) {
      if !s.transactions[i].finished {
        assert s.transactions[i].place in s.connectors;
      }
    }
    forall i | OneOpen(s) && i in s'.transactions && !s'.transactions[i].finished
      ensures PointsTo(s', s'.transactions[i].place, i)
    {
      assert PointsTo(s, s.transactions[i].place, i);
    }
  }

  // ---------- which rows go, by the documents ----------

  /** The row a close leaves: the figures and the time of the newest sample, charged by the row's own
      plan, or without a sample an abort where the session started; everything else as it was. */
  ghost predicate ClosedBySystem(t: Transaction, samples: seq<Sample>, t': Transaction) {
    && t'.finished && t'.id == t.id && t'.place == t.place && t'.plan == t.plan
    && t'.meterStart == t.meterStart && t'.timeStart == t.timeStart
    && if samples == [] then
         t'.reason == "aborted by system" && t'.timeStop == t.timeStart && t'.meterStop == t.meterStop && t'.payment == t.payment
       else
         && t'.reason == "stopped by system"
         && (exists x :: x in samples && t'.timeStop == x.time && t'.meterStop == x.value)
         && (forall x :: x in samples ==> x.time <= t'.timeStop)
         && t'.payment == if t.plan.None? then t.payment
                          else Price(t.plan.value, t'.timeStop - t.timeStart, t'.meterStop - t.meterStart)
  }

  /** The row is closed, its samples are gone, and no connector holds it. */
  ghost predicate SweptOff(s: Store, s': Store, i: int)
    requires i in s.transactions
  {
    && i in s'.transactions && ClosedBySystem(s.transactions[i], s.SamplesOf(i), s'.transactions[i]) && s'.SamplesOf(i) == []
    && forall p :: p in s'.connectors ==> s'.connectors[p].currentTransactionId != i
  }

  /** The row, its samples and the connectors that hold it are as they were. */
  ghost predicate Spared(s: Store, s': Store, i: int)
    requires i in s.transactions
  {
    && i in s'.transactions && s'.transactions[i] == s.transactions[i] && s'.SamplesOf(i) == s.SamplesOf(i)
    && forall p :: p in s.connectors && s.connectors[p].currentTransactionId == i ==>
         p in s'.connectors && s'.connectors[p] == s.connectors[p]
  }

  lemma ClosedExactly(s: Store, m: Memory, s': Store, m': Memory, done: set<int>, i: int)
    requires After(s, m, s', m', done) && Anchors(s) && i in s.transactions
    ensures if i in done then SweptOff(s, s', i) else Spared(s, s', i)
  {
    FiguresExactly(s.transactions[i], s.SamplesOf(i));
  }

  /** One close, whatever fails in it: the row is closed at its newest sample, or aborted when there is none
      or it cannot be read, unless it cannot be written; its samples are deleted either way, unless that
      fails. No other row and no other samples change. */
  lemma FinishRowsExactly(h: History, m: Memory, order: seq<Place>, t: Transaction, f: Faults)
    requires t.id in Now(h).transactions
    ensures var s, s' := Now(h), Now(FinishAbandoned(h, m, order, t, f).history);
            && t.id in s'.transactions && s'.transactions == s.transactions[t.id := s'.transactions[t.id]]
            && (if f.updateTransaction then s'.transactions[t.id] == s.transactions[t.id]
                else ClosedBySystem(t, if f.read then [] else s.SamplesOf(t.id), s'.transactions[t.id]))
            && s'.samples == if f.samples then s.samples else s.samples - {t.id}
  {
    var newest := if f.read then None else Newest(Now(h).SamplesOf(t.id));
    var h1 := Record(h, f.updateTransaction, Now(h).UpdateTransaction(SweepFigures(t, newest)));
    ReleaseKeepsRows(h1, m, order, t, f);
    FiguresExactly(t, if f.read then [] else Now(h).SamplesOf(t.id));
  }

  lemma FiguresExactly(t: Transaction, samples: seq<Sample>)
    ensures ClosedBySystem(t, samples, SweepFigures(t, Newest(samples)))
  {
    if samples != [] {
      assert Newest(samples).value in samples;
    }
  }

  /** One pass of the sweep: an open row whose connector holds it, or is not stored, goes exactly when
      its start and all its samples are twenty minutes old; one whose connector holds anything else when
      they are two minutes old. All other rows keep their samples and their connectors. */
  lemma SweepClosesExactly(s: Store, m: Memory, order: seq<Place>, out: seq<Swept>, faults: int -> Faults, now: int, i: int)
    requires Calm([s], m, {}) && Unfailing(Rows(out), faults) && i in s.transactions
    requires Selects(out, s, now - STALE_AFTER, now - RELEASE_GRACE)
    ensures var s', t := Now(Pass([s], m, order, Rows(out), faults).history), s.transactions[i];
            var moved := t.place in s.connectors && s.connectors[t.place].currentTransactionId != i;
            var since := if moved then now - 2 * MINUTE else now - 20 * MINUTE;
            if !t.finished && t.timeStart <= since && (forall x :: x in s.SamplesOf(i) ==> x.time <= since)
            then SweptOff(s, s', i) else Spared(s, s', i)
  {
    SweepEffect(s, m, order, out, faults, now);
    var l := Pass([s], m, order, Rows(out), faults);
    ClosedExactly(s, m, Now(l.history), l.memory, AbandonedIds(s, now), i);
    SelectedExactly(out, s, i, now);
    assert i in AbandonedIds(s, now) <==> exists x :: x in out && x.t == s.transactions[i];
  }

  /** Whatever fails in a pass, it touches no row and no samples but those of its own list. */
  lemma {:induction false} PassSpares(h: History, m: Memory, order: seq<Place>, list: seq<Transaction>, faults: int -> Faults, i: int)
    requires i !in Ids(list) && i in Now(h).transactions
    ensures var s' := Now(Pass(h, m, order, list, faults).history);
            i in s'.transactions && s'.transactions[i] == Now(h).transactions[i] && s'.SamplesOf(i) == Now(h).SamplesOf(i)
    decreases |list|
  {
    if list != [] {
      assert list == [list[0]] + list[1..];
      var l := FinishAbandoned(h, m, order, list[0], faults(list[0].id));
      FinishSpares(h, m, order, list[0], faults(list[0].id), i);
      PassSpares(l.history, l.memory, order, list[1..], faults, i);
    }
  }

  lemma FinishSpares(h: History, m: Memory, order: seq<Place>, t: Transaction, f: Faults, i: int)
    requires t.id != i && i in Now(h).transactions
    ensures var s' := Now(FinishAbandoned(h, m, order, t, f).history);
            i in s'.transactions && s'.transactions[i] == Now(h).transactions[i] && s'.SamplesOf(i) == Now(h).SamplesOf(i)
  {
    var newest := if f.read then None else Newest(Now(h).SamplesOf(t.id));
    var h1 := Record(h, f.updateTransaction, Now(h).UpdateTransaction(SweepFigures(t, newest)));
    ReleaseKeepsRows(h1, m, order, t, f);
    var s1 := Now(h1);
    assert i in s1.transactions && s1.transactions[i] == Now(h).transactions[i] && s1.samples == Now(h).samples;
    var l := ReleaseSwept(h1, m, order, t, f);
    assert Now(l.history).DeleteSamples(t.id).SamplesOf(i) == s1.SamplesOf(i);
  }

  lemma ReleaseKeepsRows(h: History, m: Memory, order: seq<Place>, t: Transaction, f: Faults)
    ensures var s' := Now(ReleaseSwept(h, m, order, t, f).history);
            s'.transactions == Now(h).transactions && s'.samples == Now(h).samples
  {
    LocateRows(h, m, t.place.chargePoint, t.place.number, order, f);
  }

  // ---------- after a reboot ----------

  /** Whether the reboot reconcile leaves a transaction alone: its newest sample is recent. */
  predicate StillReporting(newest: Option<Sample>, now: int) {
    newest.Some? && newest.value.time > now - RELEASE_GRACE
  }

  /** A sample that cannot be read counts as none. */
  ghost function LeftOpenByReboot(s: Store, cp: string, now: int, faults: int -> Faults): set<int> {
    set i | i in s.transactions && s.transactions[i].place.chargePoint == cp && !s.transactions[i].finished
            && !StillReporting(if faults(i).read then None else Newest(s.SamplesOf(i)), now)
  }

  /** The reboot reconcile closes every open transaction of the charge point but those with a sample
      within the grace period, and touches no other charge point's transactions. */
  lemma ReconcileEffect(s: Store, m: Memory, order: seq<Place>, list: seq<Transaction>, faults: int -> Faults, cp: string, now: int)
    requires Calm([s], m, {}) && DistinctIds(list) && Unfailing(list, faults)
    requires forall t :: t in list ==> t.id in s.transactions && s.transactions[t.id] == t
    requires Ids(list) == LeftOpenByReboot(s, cp, now, faults)
    ensures var l := Pass([s], m, order, list, faults);
            var s' := Now(l.history);
            && Calm(l.history, l.memory, {}) && After(s, m, s', l.memory, LeftOpenByReboot(s, cp, now, faults))
            && (forall i :: i in s'.transactions && s'.transactions[i].place.chargePoint == cp && !s'.transactions[i].finished ==>
                  exists x :: x in s'.SamplesOf(i) && x.time > now - RELEASE_GRACE)
            && (forall i :: i in s.transactions && s.transactions[i].place.chargePoint != cp ==> s'.transactions[i] == s.transactions[i])
  {
    forall t | t in list ensures !t.finished {
      assert t.id in Ids(list);
    }
    assert Now([s]) == s;
    PassEffect([s], m, order, list, faults);
    var l := Pass([s], m, order, list, faults);
    ReportingStay(s, m, Now(l.history), l.memory, faults, cp, now);
  }

  lemma ReportingStay(s: Store, m: Memory, s': Store, m': Memory, faults: int -> Faults, cp: string, now: int)
    requires Anchors(s) && After(s, m, s', m', LeftOpenByReboot(s, cp, now, faults))
    ensures forall i :: i in s'.transactions && s'.transactions[i].place.chargePoint == cp && !s'.transactions[i].finished ==>
              exists x :: x in s'.SamplesOf(i) && x.time > now - RELEASE_GRACE
    ensures forall i :: i in s.transactions && s.transactions[i].place.chargePoint != cp ==> s'.transactions[i] == s.transactions[i]
  {
    forall i | i in s'.transactions && s'.transactions[i].place.chargePoint == cp && !s'.transactions[i].finished
      ensures exists x :: x in s'.SamplesOf(i) && x.time > now - RELEASE_GRACE
    {
      assert i !in LeftOpenByReboot(s, cp, now, faults);
      assert Newest(s.SamplesOf(i)).value in s'.SamplesOf(i);
    }
  }

  /** Which rows the reconcile takes, by the documents: the open ones of the charge point without a
      readable sample of the last two minutes. */
  lemma LeftOpenExactly(s: Store, cp: string, now: int, faults: int -> Faults, i: int)
    requires i in s.transactions
    ensures i in LeftOpenByReboot(s, cp, now, faults)
            <==> && s.transactions[i].place.chargePoint == cp && !s.transactions[i].finished
                 && (faults(i).read || forall x :: x in s.SamplesOf(i) ==> x.time <= now - 2 * MINUTE)
  {
  }

  /** The reboot reconcile, row by row: what it takes is closed, and every other row, a session that
      still reports among them, keeps its samples and its connectors. */
  lemma ReconcileClosesExactly(
    s: Store, m: Memory, order: seq<Place>, list: seq<Transaction>, faults: int -> Faults, cp: string, now: int, i: int)
    requires Calm([s], m, {}) && DistinctIds(list) && Unfailing(list, faults) && i in s.transactions
    requires forall t :: t in list ==> t.id in s.transactions && s.transactions[t.id] == t
    requires Ids(list) == LeftOpenByReboot(s, cp, now, faults)
    ensures var s', t := Now(Pass([s], m, order, list, faults).history), s.transactions[i];
            if t.place.chargePoint == cp && !t.finished && (forall x :: x in s.SamplesOf(i) ==> x.time <= now - 2 * MINUTE)
            then SweptOff(s, s', i) else Spared(s, s', i)
  {
    ReconcileEffect(s, m, order, list, faults, cp, now);
    var l := Pass([s], m, order, list, faults);
    ClosedExactly(s, m, Now(l.history), l.memory, Ids(list), i);
    LeftOpenExactly(s, cp, now, faults, i);
    if i in Ids(list) {
      var t :| t in list && t.id == i;
      assert faults(t.id) == NO_FAULTS;
    }
  }

  /** Also when operations fail, a session with a readable sample of the last two minutes, a closed row,
      and every row of another charge point keep row and samples. */
  lemma ReconcileSpares(
    h: History, m: Memory, order: seq<Place>, list: seq<Transaction>, faults: int -> Faults, cp: string, now: int, i: int)
    requires Ids(list) == LeftOpenByReboot(Now(h), cp, now, faults) && i in Now(h).transactions
    requires || Now(h).transactions[i].finished || Now(h).transactions[i].place.chargePoint != cp
             || (!faults(i).read && exists x :: x in Now(h).SamplesOf(i) && x.time > now - 2 * MINUTE)
    ensures var s' := Now(Pass(h, m, order, list, faults).history);
            i in s'.transactions && s'.transactions[i] == Now(h).transactions[i] && s'.SamplesOf(i) == Now(h).SamplesOf(i)
  {
    LeftOpenExactly(Now(h), cp, now, faults, i);
    PassSpares(h, m, order, list, faults, i);
  }
}
