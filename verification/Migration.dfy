/** The migration that closes the backlog of stuck transactions (internal/migrations.go). */
module Migration {
  import opened Domain
  import opened Persistence
  import opened Sessions
  import opened Loading
  import opened Lifecycle
  import opened Pointers
  import opened Safety
  import opened Ledger

  const ZERO_TIME := -62135596800 * SECOND  // Go's time.Time{}

  const STUCK_VERSION := 3

  /** A stuck row: open, started before the cutoff, without a payment, and with no sample after it. */
  predicate Stuck(s: Store, t: Transaction, cutoff: int) {
    && !t.finished && t.timeStart < cutoff && t.payment <= 0
    && var newest := Newest(s.SamplesOf(t.id)); newest.Some? ==> newest.value.time <= cutoff
  }

  function BacklogFigures(t: Transaction, newest: Option<Sample>): Transaction {
    match newest
    case None => t.(finished := true, timeStop := t.timeStart, meterStop := t.meterStart, reason := ABORTED_BACKLOG)
    case Some(x) => t.(finished := true, timeStop := x.time, meterStop := x.value, reason := STOPPED_BACKLOG)
  }

  function Closed(s: Store, t: Transaction, cutoff: int): Transaction {
    if Stuck(s, t, cutoff) then BacklogFigures(t, Newest(s.SamplesOf(t.id))) else t
  }

  predicate Orphaned(s: Store, c: Connector) {
    c.currentTransactionId >= 0 && c.currentTransactionId in s.transactions && s.transactions[c.currentTransactionId].finished
  }

  function CloseAll(s: Store, cutoff: int): Store {
    s.(transactions := map i | i in s.transactions :: Closed(s, s.transactions[i], cutoff))
  }

  function ReleaseAll(s: Store): Store {
    s.(connectors := map p | p in s.connectors :: if Orphaned(s, s.connectors[p]) then FREE else s.connectors[p])
  }

  /** What the migration is for, as one transformation of the database. */
  function Up(s: Store, cutoff: int): Store {
    ReleaseAll(CloseAll(s, cutoff))
  }

  predicate IsBacklog(reason: string) {
    reason == STOPPED_BACKLOG || reason == ABORTED_BACKLOG
  }

  /** The rollback: every row with a backlog reason is reopened; connectors are left alone. */
  function Down(s: Store): Store {
    s.(transactions := map i | i in s.transactions ::
         var t := s.transactions[i];
         if IsBacklog(t.reason) then t.(finished := false, timeStop := ZERO_TIME, reason := "") else t)
  }

  ghost predicate Numbered(s: Store) {
    forall i :: i in s.transactions ==> s.transactions[i].id == i && i >= 0
  }

  // ---------- what it establishes ----------

  /** On any database: afterwards no connector points at a finished transaction, and each open one
      started at or after the cutoff, carries a payment, or has a sample after the cutoff. Payments,
      samples and rows that were finished are as before; a pointer to a missing row stays. */
  lemma UpEstablishes(s: Store, cutoff: int)
    ensures var r := Up(s, cutoff);
            && (forall p :: p in r.connectors ==> !Orphaned(r, r.connectors[p]))
            && (forall i :: i in r.transactions && !r.transactions[i].finished ==>
                  var t := r.transactions[i];
                  || t.timeStart >= cutoff || t.payment > 0 || exists x :: x in r.SamplesOf(t.id) && x.time > cutoff)
            && r.transactions.Keys == s.transactions.Keys && r.connectors.Keys == s.connectors.Keys
            && r.samples == s.samples && r.chargePoints == s.chargePoints
            && (forall i :: i in s.transactions ==> r.transactions[i].payment == s.transactions[i].payment)
            && (forall i :: i in s.transactions && s.transactions[i].finished ==> r.transactions[i] == s.transactions[i])
            && (forall p :: p in s.connectors && s.connectors[p].currentTransactionId !in s.transactions ==> r.connectors[p] == s.connectors[p])
  {
    var r := Up(s, cutoff);
    forall i | i in r.transactions && !r.transactions[i].finished && r.transactions[i].timeStart < cutoff && r.transactions[i].payment <= 0
      ensures exists x :: x in r.SamplesOf(r.transactions[i].id) && x.time > cutoff
    {
      assert Newest(s.SamplesOf(s.transactions[i].id)).value in r.SamplesOf(r.transactions[i].id);
    }
  }

  /** A row that was finished, started at or after the cutoff, carries a payment, or has a sample after
      the cutoff. */
  ghost predicate Alive(s: Store, t: Transaction, cutoff: int) {
    t.finished || t.timeStart >= cutoff || t.payment > 0 || exists x :: x in s.SamplesOf(t.id) && x.time > cutoff
  }

  /** A row closed as backlog: at its newest sample, or, without one, where it started. No payment. */
  ghost predicate ClosedAsBacklog(t: Transaction, samples: seq<Sample>, t': Transaction) {
    && t'.finished && t'.id == t.id && t'.place == t.place && t'.plan == t.plan && t'.payment == t.payment
    && t'.meterStart == t.meterStart && t'.timeStart == t.timeStart
    && if samples == [] then
         t'.reason == "aborted by system (backlog)" && t'.timeStop == t.timeStart && t'.meterStop == t.meterStart
       else
         && t'.reason == "stopped by system (backlog)"
         && (exists x :: x in samples && t'.timeStop == x.time && t'.meterStop == x.value)
         && (forall x :: x in samples ==> x.time <= t'.timeStop)
  }

  /** Row by row: exactly the rows that are alive stay as they are, the others are closed as backlog;
      and exactly the connectors that then point at a finished row are freed, so the connector of an
      open session that is alive keeps it. */
  lemma UpClosesExactly(s: Store, cutoff: int)
    ensures var r := Up(s, cutoff);
            && (forall i :: i in s.transactions ==>
                  && (r.transactions[i] == s.transactions[i] <==> Alive(s, s.transactions[i], cutoff))
                  && (Alive(s, s.transactions[i], cutoff)
                      || ClosedAsBacklog(s.transactions[i], s.SamplesOf(s.transactions[i].id), r.transactions[i])))
            && (forall p :: p in s.connectors ==>
                  var i := s.connectors[p].currentTransactionId;
                  r.connectors[p] == if i >= 0 && i in r.transactions && r.transactions[i].finished then Connector(-1, 0) else s.connectors[p])
  {
    forall i | i in s.transactions && s.SamplesOf(s.transactions[i].id) != []
      ensures Newest(s.SamplesOf(s.transactions[i].id)).value in s.SamplesOf(s.transactions[i].id)
    {
    }
  }

  lemma CloseFixpoint(s: Store, cutoff: int)
    requires forall i :: i in s.transactions ==> !Stuck(s, s.transactions[i], cutoff)
    ensures CloseAll(s, cutoff) == s
  {
    forall i | i in s.transactions ensures CloseAll(s, cutoff).transactions[i] == s.transactions[i] {
      assert !Stuck(s, s.transactions[i], cutoff);
    }
    SameMap(CloseAll(s, cutoff).transactions, s.transactions);
  }

  lemma ReleaseFixpoint(s: Store)
    requires forall p :: p in s.connectors ==> !Orphaned(s, s.connectors[p])
    ensures ReleaseAll(s) == s
  {
    SameMap(ReleaseAll(s).connectors, s.connectors);
  }

  /** Running it again with the same cutoff changes nothing. */
  lemma UpTwice(s: Store, cutoff: int)
    ensures Up(Up(s, cutoff), cutoff) == Up(s, cutoff)
  {
    var r := Up(s, cutoff);
    forall i | i in r.transactions ensures !Stuck(r, r.transactions[i], cutoff) {
      assert r.SamplesOf(s.transactions[i].id) == s.SamplesOf(s.transactions[i].id);
    }
    CloseFixpoint(r, cutoff);
    ReleaseFixpoint(r);
  }

  /** Closing one stuck row is progress: the migration still ends in the same database. */
  lemma CloseOneConverges(s: Store, i: int, cutoff: int)
    requires Numbered(s) && i in s.transactions && Stuck(s, s.transactions[i], cutoff)
    ensures Up(s.UpdateTransaction(Closed(s, s.transactions[i], cutoff)), cutoff) == Up(s, cutoff)
  {
    var s1 := s.UpdateTransaction(Closed(s, s.transactions[i], cutoff));
    forall j | j in s.transactions ensures CloseAll(s1, cutoff).transactions[j] == CloseAll(s, cutoff).transactions[j] {
      assert s1.SamplesOf(s.transactions[j].id) == s.SamplesOf(s.transactions[j].id);
    }
    SameMap(CloseAll(s1, cutoff).transactions, CloseAll(s, cutoff).transactions);
  }

  /** So is releasing one connector that points at a row finished by now. */
  lemma ReleaseOneConverges(s: Store, p: Place, cutoff: int)
    requires p in s.connectors && Orphaned(s, s.connectors[p])
    ensures var s1 := s.UpdateConnector(p, FREE);
            Up(s1, cutoff) == Up(s, cutoff) && ReleaseAll(s1) == ReleaseAll(s)
  {
    var s1 := s.UpdateConnector(p, FREE);
    forall j | j in s.transactions ensures CloseAll(s1, cutoff).transactions[j] == CloseAll(s, cutoff).transactions[j] {
      assert s1.SamplesOf(s.transactions[j].id) == s.SamplesOf(s.transactions[j].id);
    }
    var c, c1 := CloseAll(s, cutoff), CloseAll(s1, cutoff);
    SameMap(c1.transactions, c.transactions);
    SameMap(ReleaseAll(c1).connectors, ReleaseAll(c).connectors);
    SameMap(ReleaseAll(s1).connectors, ReleaseAll(s).connectors);
  }

  // ---------- the rollback ----------

  /** The rollback restores which rows are finished exactly when no finished row carried a backlog
      reason before; and then the reopened rows are exactly those the migration closed. */
  lemma DownReopensExactly(s: Store, cutoff: int)
    ensures var r := Down(Up(s, cutoff));
            && r.transactions.Keys == s.transactions.Keys
            && ((forall i :: i in s.transactions ==> r.transactions[i].finished == s.transactions[i].finished)
                <==> (forall i :: i in s.transactions && s.transactions[i].finished ==> !IsBacklog(s.transactions[i].reason)))
            && (forall i :: i in s.transactions && !IsBacklog(s.transactions[i].reason) && !Stuck(s, s.transactions[i], cutoff) ==>
                  r.transactions[i] == s.transactions[i])
            && (forall i :: i in s.transactions && Stuck(s, s.transactions[i], cutoff) ==>
                  !r.transactions[i].finished && Up(s, cutoff).transactions[i].finished)
            && r.connectors == Up(s, cutoff).connectors
  {
  }

  /** A row that was alive comes through migration and rollback as it was, unless its reason is one of
      the migration's own. One the migration closed is open again, without a reason or an end; its meter
      stop stays. */
  lemma RollbackExactly(s: Store, cutoff: int, i: int)
    requires i in s.transactions
    ensures var t, t' := s.transactions[i], Down(Up(s, cutoff)).transactions[i];
            var reopened := t.(finished := false, timeStop := ZERO_TIME, reason := "");
            if !Alive(s, t, cutoff) then t' == reopened.(meterStop := Up(s, cutoff).transactions[i].meterStop)
            else if t.reason == "stopped by system (backlog)" || t.reason == "aborted by system (backlog)" then t' == reopened
            else t' == t
  {
    UpClosesExactly(s, cutoff);
  }

  // ---------- the invariant the runtime then keeps ----------

  /** A pointer the migration leaves in order: it names a row of its own connector, or one that is
      finished or stuck, which the migration takes off it. */
  ghost predicate Mended(s: Store, p: Place, cutoff: int)
    requires p in s.connectors
  {
    var i := s.connectors[p].currentTransactionId;
    i >= 0 ==> i in s.transactions && (s.transactions[i].place == p || Taken(s, p, cutoff))
  }

  ghost predicate Taken(s: Store, p: Place, cutoff: int)
    requires p in s.connectors
  {
    var i := s.connectors[p].currentTransactionId;
    i in s.transactions && (s.transactions[i].finished || Stuck(s, s.transactions[i], cutoff))
  }

  /** Exactly which databases the migration turns into one whose pointers are anchored and whose
      holding connectors belong to stored charge points. */
  ghost predicate Mendable(s: Store, cutoff: int) {
    && (forall i :: i in s.transactions ==> s.transactions[i].id == i && i > 0)
    && (forall p :: p in s.connectors ==> Mended(s, p, cutoff))
    && (forall p :: p in s.connectors && s.connectors[p].currentTransactionId >= 0 ==>
          p.chargePoint in s.chargePoints || Taken(s, p, cutoff))
  }

  lemma MendsExactly(s: Store, cutoff: int)
    ensures Anchors(Up(s, cutoff)) && Homed(Up(s, cutoff)) <==> Mendable(s, cutoff)
  {
    var r := Up(s, cutoff);
    forall p | p in s.connectors
      ensures r.connectors[p] == if Taken(s, p, cutoff) && s.connectors[p].currentTransactionId >= 0 then FREE else s.connectors[p]
    {
      var i := s.connectors[p].currentTransactionId;
      if i in s.transactions {
        assert CloseAll(s, cutoff).transactions[i].finished <==> Taken(s, p, cutoff);
      }
    }
    forall i | i in s.transactions
      ensures r.transactions[i].id == s.transactions[i].id && r.transactions[i].place == s.transactions[i].place
    {
    }
    if Mendable(s, cutoff) {
      forall p | p in r.connectors ensures Holds(r, p, r.connectors[p].currentTransactionId) {
        assert Mended(s, p, cutoff);
      }
    } else if Anchors(r) && Homed(r) {
      forall p | p in s.connectors ensures Mended(s, p, cutoff) {
        assert Holds(r, p, r.connectors[p].currentTransactionId);
      }
    }
  }

  /** The process that starts on a migrated database comes up sound, and so stays sound over every
      fair run, exactly when the database was mendable. */
  lemma MigratedStartsSound(s: Store, cutoff: int, acceptPoints: bool, x: Step)
    requires x.event.Restart? && x.crash.None? && !x.faults.connector && !x.faults.read
    requires ListsConnectors(x.order, s)
    ensures Sound(Advance(World.Down(Up(s, cutoff), acceptPoints), x)) <==> Mendable(s, cutoff)
  {
    var r := Up(s, cutoff);
    var w := World.Down(r, acceptPoints);
    UpEstablishes(s, cutoff);
    MendsExactly(s, cutoff);
    assert ListsConnectors(x.order, r);
    if Anchors(r) && Homed(r) {
      AdvanceSound(w, x);
    } else {
      LoadsAsStored(r, x.order, acceptPoints, x.faults);
      StaysUnsound(r, Advance(w, x).store);
    }
  }

  lemma StaysUnsound(r: Store, s: Store)
    requires s.transactions == r.transactions && s.chargePoints == r.chargePoints && s.connectors.Keys == r.connectors.Keys
    requires forall p :: p in r.connectors && r.connectors[p].currentTransactionId >= 0 ==> s.connectors[p] == r.connectors[p]
    ensures Anchors(s) && Homed(s) ==> Anchors(r) && Homed(r)
  {
    if Anchors(s) && Homed(s) {
      forall p | p in r.connectors && r.connectors[p].currentTransactionId >= 0
        ensures Holds(r, p, r.connectors[p].currentTransactionId) && p.chargePoint in r.chargePoints
      {
        assert s.connectors[p] == r.connectors[p];
        assert Holds(s, p, s.connectors[p].currentTransactionId);
      }
    }
  }

  /** Starting on it changes no pointer. */
  lemma LoadsAsStored(r: Store, order: seq<Place>, acceptPoints: bool, f: Faults)
    requires (forall p :: p in r.connectors ==> !Orphaned(r, r.connectors[p])) && !f.read
    ensures var s' := Now(OnStart(r, order, acceptPoints, f).history);
            && s'.transactions == r.transactions && s'.chargePoints == r.chargePoints
            && s'.connectors.Keys == r.connectors.Keys
            && (forall p :: p in r.connectors && r.connectors[p].currentTransactionId >= 0 ==> s'.connectors[p] == r.connectors[p])
  {
    LoadConnectorsExactly([r], Memory(map[], r.chargePoints.Keys, 1, acceptPoints), r.chargePoints.Keys, order, f);
  }

  /** Rows closed by the migration carry no payment, which the ledger allows for: on a migrated database
      the ledger holds over every run. */
  lemma MigratedRunsSettled(s: Store, cutoff: int, acceptPoints: bool, steps: seq<Step>)
    requires AllSettled(s)
    ensures SettledWorld(Run(World.Down(Up(s, cutoff), acceptPoints), steps))
  {
    assert AllSettled(Up(s, cutoff));
    RunSettled(World.Down(Up(s, cutoff), acceptPoints), steps);
  }

  // ---------- the implementation ----------

  // Every operation may be the one that fails; it ends the migration. The budget counts the operations
  // that still succeed.

  /** One candidate: closed unless it is recent, paid for, or still reporting. */
  method CloseCandidate(db: Database, t: Transaction, cutoff: int, budget: nat, ghost s0: Store) returns (ok: bool, left: nat)
    requires db.Valid() && Numbered(db.State()) && t.id in db.transactions && db.transactions[t.id] == t
    requires Up(db.State(), cutoff) == Up(s0, cutoff)
    modifies db
    ensures db.Valid() && Numbered(db.State()) && Up(db.State(), cutoff) == Up(s0, cutoff)
    ensures db.transactions.Keys == old(db.transactions.Keys) && db.samples == old(db.samples)
    ensures forall i :: i in db.transactions && i != t.id ==> db.transactions[i] == old(db.transactions[i])
    ensures ok ==> !Stuck(db.State(), db.transactions[t.id], cutoff)
    ensures |old(db.history)| <= |db.history| && db.history[..|old(db.history)|] == old(db.history)
    ensures Converges(db.history[|old(db.history)|..], s0, cutoff)
  {
    ok, left := true, budget;
    if !t.finished && t.timeStart < cutoff && t.payment <= 0 {
      if left == 0 {
        return false, 0;
      }
      left := left - 1;
      var newest := db.ReadTransactionMeterValue(t.id, false);
      if newest == None || newest.value.time <= cutoff {
        ok, left := CloseStuck(db, t, newest, cutoff, left, s0);
      }
    }
  }

  /** The loops of the migration. If it gets through, the database ends as the transformation says; if
      an operation fails, or the process dies at any write, migrating again with the same cutoff still
      ends there. */
  method MigrationStuckTransactionsUp(db: Database, cutoff: int, budget: nat) returns (ok: bool)
    requires db.Valid() && Numbered(db.State())
    modifies db
    ensures db.Valid() && Numbered(db.State()) && (ok ==> db.State() == Up(old(db.State()), cutoff))
    ensures Up(db.State(), cutoff) == Up(old(db.State()), cutoff)
    ensures |old(db.history)| <= |db.history|
    ensures Converges(db.history[|old(db.history)|..], old(db.State()), cutoff)
  {
    ghost var s0, n := db.State(), |db.history|;
    if budget == 0 {
      return false;
    }
    var left: nat := budget - 1;
    var candidates := db.ListTransactions();
    var i := 0;
    while i < |candidates|
      invariant 0 <= i <= |candidates| && db.Valid() && Numbered(db.State())
      invariant n <= |db.history| && Converges(db.history[n..], s0, cutoff)
      invariant Up(db.State(), cutoff) == Up(s0, cutoff)
      invariant db.transactions.Keys == s0.transactions.Keys && db.samples == s0.samples
      invariant forall j :: i <= j < |candidates| ==> db.transactions[candidates[j].id] == candidates[j]
      invariant forall j :: 0 <= j < i ==> !Stuck(db.State(), db.transactions[candidates[j].id], cutoff)
    {
      ghost var h := db.history;
      ok, left := CloseCandidate(db, candidates[i], cutoff, left, s0);
      ConvergesOn(h, db.history, n, s0, cutoff);
      if !ok {
        return;
      }
      i := i + 1;
    }
    NoneStuck(s0, db.State(), candidates, cutoff);
    ghost var h := db.history;
    CloseFixpoint(db.State(), cutoff);
    ok := ReleaseOrphanedConnectors(db, cutoff, left, s0);
    ConvergesOn(h, db.history, n, s0, cutoff);
  }

  /** From any of these states the migration still ends where it would have ended from the start. */
  ghost predicate Converges(h: seq<Store>, s0: Store, cutoff: int) {
    forall k :: 0 <= k < |h| ==> Up(h[k], cutoff) == Up(s0, cutoff)
  }

  method CloseStuck(db: Database, t: Transaction, newest: Option<Sample>, cutoff: int, budget: nat, ghost s0: Store)
    returns (ok: bool, left: nat)
    requires db.Valid() && Numbered(db.State()) && t.id in db.transactions && db.transactions[t.id] == t
    requires newest == Newest(db.State().SamplesOf(t.id)) && Stuck(db.State(), t, cutoff)
    requires Up(db.State(), cutoff) == Up(s0, cutoff)
    modifies db
    ensures db.Valid() && Numbered(db.State()) && Up(db.State(), cutoff) == Up(s0, cutoff)
    ensures db.samples == old(db.samples)
    ensures || db.transactions == old(db.transactions)[t.id := BacklogFigures(t, newest)]
            || (!ok && db.transactions == old(db.transactions))
    ensures |old(db.history)| <= |db.history| && db.history[..|old(db.history)|] == old(db.history)
    ensures Converges(db.history[|old(db.history)|..], s0, cutoff)
  {
    if budget == 0 {
      return false, 0;
    }
    CloseOneConverges(db.State(), t.id, cutoff);
    ghost var h0 := db.history;
    db.UpdateTransaction(BacklogFigures(t, newest), false);
    assert db.history[|h0|..] == [db.State()];
    if budget == 1 {
      return false, 0;
    }
    if t.place in db.connectors && db.connectors[t.place].currentTransactionId == t.id {
      ReleaseOneConverges(db.State(), t.place, cutoff);
      ghost var h1 := db.history;
      db.UpdateConnector(t.place, FREE, false);
      assert db.history[|h1|..] == [db.State()];
      ConvergesOn(h1, db.history, |h0|, s0, cutoff);
    }
    ok, left := true, budget - 2;
  }

  /** The second pass: pointers left behind by closes that never released their connector. */
  method ReleaseOrphanedConnectors(db: Database, ghost cutoff: int, budget: nat, ghost s0: Store) returns (ok: bool)
    requires db.Valid() && Up(db.State(), cutoff) == Up(s0, cutoff)
    modifies db
    ensures db.Valid() && Up(db.State(), cutoff) == Up(s0, cutoff) && db.transactions == old(db.transactions)
    ensures ok ==> db.State() == ReleaseAll(old(db.State()))
    ensures |old(db.history)| <= |db.history| && db.history[..|old(db.history)|] == old(db.history)
    ensures Converges(db.history[|old(db.history)|..], s0, cutoff)
  {
    if budget == 0 {
      return false;
    }
    ghost var was, h0 := db.State(), db.history;
    var left: nat := budget - 1;
    var pinned := db.ListConnectors();
    var i := 0;
    while i < |pinned|
      invariant 0 <= i <= |pinned| && db.Valid() && |h0| <= |db.history| && db.history[..|h0|] == h0
      invariant Converges(db.history[|h0|..], s0, cutoff) && Up(db.State(), cutoff) == Up(s0, cutoff)
      invariant ReleaseAll(db.State()) == ReleaseAll(was)
      invariant db.transactions == was.transactions && db.connectors.Keys == was.connectors.Keys
      invariant forall j :: 0 <= j < i ==> !Orphaned(db.State(), db.connectors[pinned[j]])
    {
      ghost var h := db.history;
      ok, left := ReleaseOrphan(db, pinned[i], cutoff, left, s0);
      ConvergesOn(h, db.history, |h0|, s0, cutoff);
      if !ok {
        return;
      }
      i := i + 1;
    }
    forall p | p in db.connectors ensures !Orphaned(db.State(), db.connectors[p]) {
      var k :| 0 <= k < |pinned| && pinned[k] == p;
    }
    ReleaseFixpoint(db.State());
    ok := true;
  }

  method ReleaseOrphan(db: Database, p: Place, ghost cutoff: int, budget: nat, ghost s0: Store) returns (ok: bool, left: nat)
    requires db.Valid() && p in db.connectors && Up(db.State(), cutoff) == Up(s0, cutoff)
    modifies db
    ensures db.Valid() && Up(db.State(), cutoff) == Up(s0, cutoff) && ReleaseAll(db.State()) == ReleaseAll(old(db.State()))
    ensures db.transactions == old(db.transactions) && db.connectors.Keys == old(db.connectors.Keys)
    ensures ok ==> !Orphaned(db.State(), db.connectors[p])
    ensures forall q :: q in db.connectors && q != p ==> db.connectors[q] == old(db.connectors)[q]
    ensures |old(db.history)| <= |db.history| && db.history[..|old(db.history)|] == old(db.history)
    ensures Converges(db.history[|old(db.history)|..], s0, cutoff)
  {
    ok, left := true, budget;
    var c := db.connectors[p];
    if c.currentTransactionId >= 0 {
      if left == 0 {
        return false, 0;
      }
      left := left - 1;
      var transaction := db.GetTransaction(c.currentTransactionId, false);
      if transaction.Found? && transaction.value.finished {
        if left == 0 {
          return false, 0;
        }
        left := left - 1;
        ReleaseOneConverges(db.State(), p, cutoff);
        db.UpdateConnector(p, FREE, false);
      }
    }
  }

  /** Two stretches of converging states make one. */
  lemma ConvergesOn(h: seq<Store>, h': seq<Store>, n: nat, s0: Store, cutoff: int)
    requires n <= |h| <= |h'| && h'[..|h|] == h
    requires Converges(h[n..], s0, cutoff) && Converges(h'[|h|..], s0, cutoff)
    ensures Converges(h'[n..], s0, cutoff)
  {
    assert h'[n..] == h[n..] + h'[|h|..];
  }

  /** The stored schema version. */
  class SchemaVersion {
    var version: int

    constructor (version: int)
      ensures this.version == version
    {
      this.version := version;
    }
  }

  /** Runs the pending migrations in order and stores the version after each; the first failure, of a
      migration or of storing a version, ends it. The first two migrations only add fields this model
      does not have. Either everything pending is done and recorded, or the stuck-transaction migration
      is still pending or still unrecorded, and running again with the same cutoff ends in the same
      database. */
  method RunMigrations(db: Database, schema: SchemaVersion, cutoff: int, budget: nat, recorded: int) returns (ok: bool)
    requires db.Valid() && Numbered(db.State())
    modifies db, schema
    ensures db.Valid() && old(schema.version) <= schema.version <= Max(old(schema.version), STUCK_VERSION)
    ensures ok ==> schema.version == Max(old(schema.version), STUCK_VERSION)
    ensures schema.version >= STUCK_VERSION ==>
              db.State() == if old(schema.version) < STUCK_VERSION then Up(old(db.State()), cutoff) else old(db.State())
    ensures schema.version < STUCK_VERSION ==> Up(db.State(), cutoff) == Up(old(db.State()), cutoff)
  {
    var currentVersion := schema.version;
    ok := true;
    for version := 1 to STUCK_VERSION + 1
      invariant ok && db.Valid() && Numbered(db.State()) && currentVersion == old(schema.version)
      invariant schema.version == if version == 1 then currentVersion else Max(currentVersion, version - 1)
      invariant version <= STUCK_VERSION || currentVersion >= STUCK_VERSION ==> db.State() == old(db.State())
      invariant version > STUCK_VERSION && currentVersion < STUCK_VERSION ==> db.State() == Up(old(db.State()), cutoff)
    {
      if version > currentVersion {
        if version == STUCK_VERSION {
          ok := MigrationStuckTransactionsUp(db, cutoff, budget);
          if !ok {
            return;
          }
        }
        if version > recorded {
          return false;  // the version could not be stored
        }
        schema.version := version;
      }
    }
  }

  lemma NoneStuck(s0: Store, s: Store, candidates: seq<Transaction>, cutoff: int)
    requires ListsTransactions(candidates, s0) && Numbered(s0) && s.transactions.Keys == s0.transactions.Keys
    requires forall j :: 0 <= j < |candidates| ==>
               candidates[j].id in s.transactions && !Stuck(s, s.transactions[candidates[j].id], cutoff)
    ensures forall i :: i in s.transactions ==> !Stuck(s, s.transactions[i], cutoff)
  {
    forall i | i in s.transactions ensures !Stuck(s, s.transactions[i], cutoff) {
      var k :| 0 <= k < |candidates| && candidates[k] == s0.transactions[i];
    }
  }
}
