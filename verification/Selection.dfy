/** Which open transactions a sweep takes up (internal/mongo.go, GetUnfinishedTransactions): the
    aggregation pipeline, stage by stage over the documents of three collections, and the plain
    predicate it refines. */
module Selection {
  import opened Domain
  import opened Persistence

  const STALE_AFTER := 20 * MINUTE
  const RELEASE_GRACE := 2 * MINUTE

  const CAUSE_RELEASED := "connector released without a stop"
  const CAUSE_SILENT := "no activity from the charge point"

  // ---------- the predicate ----------

  /** Neither the start nor any sample of the transaction is later than an instant. */
  ghost predicate Quiet(s: Store, t: Transaction, since: int) {
    t.timeStart <= since && forall x :: x in s.SamplesOf(t.id) ==> x.time <= since
  }

  /** The transaction's connector is stored and does not hold it. */
  predicate MovedOn(s: Store, t: Transaction) {
    t.place in s.connectors && s.connectors[t.place].currentTransactionId != t.id
  }

  ghost predicate Abandoned(s: Store, t: Transaction, staleBefore: int, releasedBefore: int) {
    !t.finished && (Quiet(s, t, staleBefore) || (MovedOn(s, t) && Quiet(s, t, releasedBefore)))
  }

  ghost predicate AbandonedAt(s: Store, t: Transaction, now: int) {
    Abandoned(s, t, now - STALE_AFTER, now - RELEASE_GRACE)
  }

  /** A session that started or reported within the grace period is never taken up; one whose
      connector document is missing only by the staleness rule. */
  lemma NeverTakenUpEarly(s: Store, t: Transaction, now: int)
    requires AbandonedAt(s, t, now)
    ensures t.timeStart <= now - RELEASE_GRACE
    ensures forall x :: x in s.SamplesOf(t.id) ==> x.time <= now - RELEASE_GRACE
    ensures t.place !in s.connectors ==> Quiet(s, t, now - STALE_AFTER)
  {
  }

  // ---------- the pipeline ----------

  datatype ConnectorDoc = ConnectorDoc(place: Place, connector: Connector)

  datatype MeterDoc = MeterDoc(id: int, sample: Sample)

  datatype Row = Row(t: Transaction, connector: Option<Connector>, last: Option<int>)

  datatype Swept = Swept(t: Transaction, cause: string, lastActivity: int)

  /** $match is_finished: false */
  function MatchOpen(ts: seq<Transaction>): seq<Transaction> {
    if ts == [] then []
    else if ts[0].finished then MatchOpen(ts[1..])
    else [ts[0]] + MatchOpen(ts[1..])
  }

  /** $lookup of the connector documents of one transaction */
  function LookupConnectors(t: Transaction, cs: seq<ConnectorDoc>): seq<Connector> {
    if cs == [] then []
    else if cs[0].place == t.place then [cs[0].connector] + LookupConnectors(t, cs[1..])
    else LookupConnectors(t, cs[1..])
  }

  /** $unwind with preserveNullAndEmptyArrays: one row per match, or one row without a connector */
  function Unwind(ts: seq<Transaction>, cs: seq<ConnectorDoc>): seq<Row> {
    if ts == [] then []
    else
      var found := LookupConnectors(ts[0], cs);
      (if found == [] then [Row(ts[0], None, None)] else seq(|found|, i requires 0 <= i < |found| => Row(ts[0], Some(found[i]), None)))
      + Unwind(ts[1..], cs)
  }

  /** $lookup of the meter values with $group $max time; null when there are none */
  function LastTime(id: int, ms: seq<MeterDoc>): Option<int> {
    if ms == [] then None
    else
      var rest := LastTime(id, ms[1..]);
      if ms[0].id != id then rest
      else if rest.Some? then Some(Max(ms[0].sample.time, rest.value)) else Some(ms[0].sample.time)
  }

  function WithLast(rows: seq<Row>, ms: seq<MeterDoc>): seq<Row> {
    if rows == [] then []
    else [rows[0].(last := LastTime(rows[0].t.id, ms))] + WithLast(rows[1..], ms)
  }

  /** $max, which ignores null */
  function LastActivity(r: Row): int {
    if r.last.Some? then Max(r.t.timeStart, r.last.value) else r.t.timeStart
  }

  /** $ne against the connector's pointer, where $ifNull makes a missing connector equal */
  predicate PointerMoved(r: Row) {
    r.connector.Some? && r.connector.value.currentTransactionId != r.t.id
  }

  predicate Matches(r: Row, staleBefore: int, releasedBefore: int) {
    (PointerMoved(r) && LastActivity(r) <= releasedBefore) || LastActivity(r) <= staleBefore
  }

  /** the final $match */
  function MatchAbandoned(rows: seq<Row>, staleBefore: int, releasedBefore: int): seq<Row> {
    if rows == [] then []
    else if Matches(rows[0], staleBefore, releasedBefore) then [rows[0]] + MatchAbandoned(rows[1..], staleBefore, releasedBefore)
    else MatchAbandoned(rows[1..], staleBefore, releasedBefore)
  }

  /** $addFields sweep_cause, and $unset of the joined fields */
  function Classify(r: Row): Swept {
    Swept(r.t, if PointerMoved(r) then CAUSE_RELEASED else CAUSE_SILENT, LastActivity(r))
  }

  function Pipeline(ts: seq<Transaction>, cs: seq<ConnectorDoc>, ms: seq<MeterDoc>, staleBefore: int, releasedBefore: int): seq<Swept> {
    var rows := MatchAbandoned(WithLast(Unwind(MatchOpen(ts), cs), ms), staleBefore, releasedBefore);
    seq(|rows|, i requires 0 <= i < |rows| => Classify(rows[i]))
  }

  // ---------- refinement ----------

  ghost predicate ListsConnectorDocs(cs: seq<ConnectorDoc>, s: Store) {
    && (forall d :: d in cs ==> d.place in s.connectors && s.connectors[d.place] == d.connector)
    && (forall p :: p in s.connectors ==> ConnectorDoc(p, s.connectors[p]) in cs)
    && (forall i, j :: 0 <= i < j < |cs| ==> cs[i].place != cs[j].place)
  }

  ghost predicate ListsMeterDocs(ms: seq<MeterDoc>, s: Store) {
    forall d :: d in ms <==> d.sample in s.SamplesOf(d.id)
  }

  function ConnectorOf(s: Store, t: Transaction): Option<Connector> {
    if t.place in s.connectors then Some(s.connectors[t.place]) else None
  }

  ghost predicate DistinctIds(ts: seq<Transaction>) {
    forall i, j :: 0 <= i < j < |ts| ==> ts[i].id != ts[j].id
  }

  ghost predicate DistinctRows(rows: seq<Row>) {
    forall i, j :: 0 <= i < j < |rows| ==> rows[i].t.id != rows[j].t.id
  }

  lemma {:induction false} MatchOpenExactly(ts: seq<Transaction>)
    requires DistinctIds(ts)
    ensures forall t :: t in MatchOpen(ts) <==> t in ts && !t.finished
    ensures DistinctIds(MatchOpen(ts))
  {
    if ts != [] {
      var t, rest := ts[0], MatchOpen(ts[1..]);
      MatchOpenExactly(ts[1..]);
      assert ts == [t] + ts[1..];
      forall k | 0 <= k < |rest| ensures rest[k].id != t.id {
        assert rest[k] in ts[1..];
      }
    }
  }

  lemma {:induction false} LookupConnectorsUnique(t: Transaction, cs: seq<ConnectorDoc>)
    requires forall i, j :: 0 <= i < j < |cs| ==> cs[i].place != cs[j].place
    ensures (forall d :: d in cs ==> d.place != t.place) ==> LookupConnectors(t, cs) == []
    ensures forall d :: d in cs && d.place == t.place ==> LookupConnectors(t, cs) == [d.connector]
  {
    if cs != [] {
      LookupConnectorsUnique(t, cs[1..]);
      assert cs == [cs[0]] + cs[1..];
      forall d | d in cs[1..] ensures d.place != cs[0].place {
        var k :| 0 <= k < |cs[1..]| && cs[1..][k] == d;
      }
    }
  }

  /** Unique connector documents make the join one row per transaction. */
  lemma {:induction false} UnwindExactly(ts: seq<Transaction>, cs: seq<ConnectorDoc>, s: Store)
    requires ListsConnectorDocs(cs, s)
    ensures |Unwind(ts, cs)| == |ts|
    ensures forall i :: 0 <= i < |ts| ==> Unwind(ts, cs)[i] == Row(ts[i], ConnectorOf(s, ts[i]), None)
  {
    if ts != [] {
      LookupConnectorsUnique(ts[0], cs);
      UnwindExactly(ts[1..], cs, s);
      if ts[0].place in s.connectors {
        assert ConnectorDoc(ts[0].place, s.connectors[ts[0].place]) in cs;
      }
    }
  }

  lemma {:induction false} LastTimeExactly(id: int, ms: seq<MeterDoc>, since: int)
    ensures LastTime(id, ms).None? <==> forall d :: d in ms ==> d.id != id
    ensures LastTime(id, ms).Some? ==>
              (LastTime(id, ms).value <= since <==> forall d :: d in ms && d.id == id ==> d.sample.time <= since)
  {
    if ms != [] {
      LastTimeExactly(id, ms[1..], since);
      assert ms == [ms[0]] + ms[1..];
    }
  }

  lemma {:induction false} WithLastExactly(rows: seq<Row>, ms: seq<MeterDoc>)
    ensures |WithLast(rows, ms)| == |rows|
    ensures forall i :: 0 <= i < |rows| ==> WithLast(rows, ms)[i] == rows[i].(last := LastTime(rows[i].t.id, ms))
  {
    if rows != [] {
      WithLastExactly(rows[1..], ms);
    }
  }

  /** The row of a transaction in the joined table. */
  ghost predicate RowOf(r: Row, s: Store, ms: seq<MeterDoc>) {
    r.connector == ConnectorOf(s, r.t) && r.last == LastTime(r.t.id, ms)
  }

  lemma ActivityIsQuiet(r: Row, s: Store, ms: seq<MeterDoc>, since: int)
    requires ListsMeterDocs(ms, s) && RowOf(r, s, ms)
    ensures LastActivity(r) <= since <==> Quiet(s, r.t, since)
  {
    LastTimeExactly(r.t.id, ms, since);
    assert forall x :: x in s.SamplesOf(r.t.id) <==> MeterDoc(r.t.id, x) in ms;
  }

  ghost predicate FaithfulRow(x: Swept, s: Store) {
    && Quiet(s, x.t, x.lastActivity)
    && (forall since :: Quiet(s, x.t, since) ==> x.lastActivity <= since)
    && (x.cause == CAUSE_RELEASED <==> MovedOn(s, x.t))
    && (x.cause == CAUSE_SILENT <==> !MovedOn(s, x.t))
  }

  lemma {:induction false} MatchAbandonedExactly(rows: seq<Row>, stale: int, released: int)
    requires DistinctRows(rows)
    ensures forall r :: r in MatchAbandoned(rows, stale, released) <==> r in rows && Matches(r, stale, released)
    ensures DistinctRows(MatchAbandoned(rows, stale, released))
  {
    if rows != [] {
      var r, rest := rows[0], MatchAbandoned(rows[1..], stale, released);
      MatchAbandonedExactly(rows[1..], stale, released);
      assert rows == [r] + rows[1..];
      forall k | 0 <= k < |rest| ensures rest[k].t.id != r.t.id {
        assert rest[k] in rows[1..];
      }
    }
  }

  lemma ClassifyFaithful(r: Row, s: Store, ms: seq<MeterDoc>, stale: int, released: int)
    requires ListsMeterDocs(ms, s) && RowOf(r, s, ms) && !r.t.finished
    ensures FaithfulRow(Classify(r), s)
    ensures Matches(r, stale, released) <==> Abandoned(s, r.t, stale, released)
  {
    ActivityIsQuiet(r, s, ms, stale);
    ActivityIsQuiet(r, s, ms, released);
    forall since ensures LastActivity(r) <= since <==> Quiet(s, r.t, since) {
      ActivityIsQuiet(r, s, ms, since);
    }
    assert CAUSE_RELEASED[0] != CAUSE_SILENT[0];
  }

  lemma JoinedRows(open: seq<Transaction>, cs: seq<ConnectorDoc>, ms: seq<MeterDoc>, s: Store)
    requires ListsConnectorDocs(cs, s)
    ensures var rows := WithLast(Unwind(open, cs), ms);
            && |rows| == |open|
            && forall k :: 0 <= k < |rows| ==> rows[k] == Row(open[k], ConnectorOf(s, open[k]), LastTime(open[k].id, ms))
  {
    UnwindExactly(open, cs, s);
    WithLastExactly(Unwind(open, cs), ms);
  }

  /** The joined table has exactly one row for each open transaction. */
  lemma JoinExactly(ts: seq<Transaction>, cs: seq<ConnectorDoc>, ms: seq<MeterDoc>, s: Store)
    requires ListsTransactions(ts, s) && ListsConnectorDocs(cs, s)
    ensures var rows := WithLast(Unwind(MatchOpen(ts), cs), ms);
            && DistinctRows(rows)
            && (forall r :: r in rows ==> RowOf(r, s, ms) && !r.t.finished && r.t in ts)
            && (forall t :: t in ts && !t.finished ==> Row(t, ConnectorOf(s, t), LastTime(t.id, ms)) in rows)
  {
    var open := MatchOpen(ts);
    MatchOpenExactly(ts);
    JoinedRows(open, cs, ms, s);
    var rows := WithLast(Unwind(open, cs), ms);
    forall r | r in rows ensures RowOf(r, s, ms) && r.t in open {
      var k :| 0 <= k < |rows| && rows[k] == r;
    }
    forall t | t in open ensures Row(t, ConnectorOf(s, t), LastTime(t.id, ms)) in rows {
      var k :| 0 <= k < |open| && open[k] == t;
      assert rows[k] in rows;
    }
  }

  /** The pipeline refines the predicate: it returns each abandoned transaction exactly once and no
      other, with its true last activity and the cause that applies. */
  lemma PipelineRefines(ts: seq<Transaction>, cs: seq<ConnectorDoc>, ms: seq<MeterDoc>, s: Store, stale: int, released: int)
    requires ListsTransactions(ts, s) && ListsConnectorDocs(cs, s) && ListsMeterDocs(ms, s)
    ensures Selects(Pipeline(ts, cs, ms, stale, released), s, stale, released)
  {
    var joined := WithLast(Unwind(MatchOpen(ts), cs), ms);
    JoinExactly(ts, cs, ms, s);
    MatchAbandonedExactly(joined, stale, released);
    var rows := MatchAbandoned(joined, stale, released);
    var out := Pipeline(ts, cs, ms, stale, released);
    forall k | 0 <= k < |rows|
      ensures && out[k].t.id in s.transactions && s.transactions[out[k].t.id] == out[k].t
              && Abandoned(s, out[k].t, stale, released) && FaithfulRow(out[k], s)
    {
      assert rows[k] in joined;
      ClassifyFaithful(rows[k], s, ms, stale, released);
    }
    forall i | i in s.transactions && Abandoned(s, s.transactions[i], stale, released)
      ensures exists x :: x in out && x.t == s.transactions[i]
    {
      var r := Row(s.transactions[i], ConnectorOf(s, s.transactions[i]), LastTime(s.transactions[i].id, ms));
      ClassifyFaithful(r, s, ms, stale, released);
      var k :| 0 <= k < |rows| && rows[k] == r;
      assert out[k] in out;
    }
  }

  /** Which rows a selection takes, by the documents themselves: an open row whose connector holds it,
      or is not stored, when its start and all its samples are twenty minutes old; one whose connector
      holds anything else when they are two minutes old. The cause tells the two apart, and the last
      activity is the latest of those times. */
  lemma SelectedExactly(out: seq<Swept>, s: Store, i: int, now: int)
    requires Selects(out, s, now - STALE_AFTER, now - RELEASE_GRACE) && s.WellKeyed() && i in s.transactions
    ensures var t := s.transactions[i];
            var moved := t.place in s.connectors && s.connectors[t.place].currentTransactionId != i;
            var since := if moved then now - 2 * MINUTE else now - 20 * MINUTE;
            && ((exists x :: x in out && x.t == t)
                <==> !t.finished && t.timeStart <= since && forall y :: y in s.SamplesOf(i) ==> y.time <= since)
            && (forall x :: x in out && x.t.id == i ==>
                  && x.t == t
                  && x.cause == (if moved then "connector released without a stop" else "no activity from the charge point")
                  && t.timeStart <= x.lastActivity && (forall y :: y in s.SamplesOf(i) ==> y.time <= x.lastActivity)
                  && (x.lastActivity == t.timeStart || exists y :: y in s.SamplesOf(i) && y.time == x.lastActivity))
  {
    var t := s.transactions[i];
    assert Abandoned(s, t, now - STALE_AFTER, now - RELEASE_GRACE) ==> exists x :: x in out && x.t == t;
    forall x | x in out && x.t.id == i
      ensures x.t == t && (x.lastActivity == t.timeStart || exists y :: y in s.SamplesOf(i) && y.time == x.lastActivity)
    {
      LatestIsOne(s, t, x.lastActivity);
    }
  }

  /** An instant that is the first to have everything before it is the time of something. */
  lemma LatestIsOne(s: Store, t: Transaction, last: int)
    requires Quiet(s, t, last) && forall since :: Quiet(s, t, since) ==> last <= since
    ensures last == t.timeStart || exists y :: y in s.SamplesOf(t.id) && y.time == last
  {
    assert !Quiet(s, t, last - 1);
  }

  /** What a selection promises. */
  ghost predicate Selects(out: seq<Swept>, s: Store, stale: int, released: int) {
    && (forall x :: x in out ==>
          && x.t.id in s.transactions && s.transactions[x.t.id] == x.t
          && Abandoned(s, x.t, stale, released) && FaithfulRow(x, s))
    && (forall i :: i in s.transactions && Abandoned(s, s.transactions[i], stale, released) ==>
          exists x :: x in out && x.t == s.transactions[i])
    && (forall i, j :: 0 <= i < j < |out| ==> out[i].t.id != out[j].t.id)
  }
}
