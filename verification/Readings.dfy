/** Under which session a meter value is filed, and what is filed (server/system_handler.go,
    OnMeterValues). */
module Readings {
  import opened Billing
  import opened Domain
  import opened Persistence
  import opened Sessions
  import opened Loading

  /** The minute an instant falls into: counted from the epoch, where the truncation changes sign and
      the minutes on both sides of it count as one. */
  lemma MinuteExactly(time: int)
    ensures time >= 0 ==> 60_000_000_000 * MinuteOf(time) <= time < 60_000_000_000 * (MinuteOf(time) + 1)
    ensures time < 0 ==> 60_000_000_000 * (MinuteOf(time) - 1) < time - time % 1_000_000_000 <= 60_000_000_000 * MinuteOf(time)
  {
  }

  predicate Reports(x: Reading) {
    x.value > 0
  }

  /** A reading that reports energy, and is not the earlier one of two in a minute. */
  predicate Kept(readings: seq<Reading>, k: int) {
    && 0 <= k < |readings| && Reports(readings[k])
    && forall j :: k < j < |readings| && Reports(readings[j]) ==> MinuteOf(readings[j].time) != MinuteOf(readings[k].time)
  }

  /** No reading reports energy in the minute of an instant. */
  predicate Silent(readings: seq<Reading>, time: int) {
    forall k :: 0 <= k < |readings| && Reports(readings[k]) ==> MinuteOf(readings[k].time) != MinuteOf(time)
  }

  /** The sample of a reading: its time and value, and what the session owes at it. */
  function SampleOf(t: Transaction, x: Reading): Sample {
    Sample(x.time, x.value,
      if t.plan.None? then 0 else Price(t.plan.value, x.time - t.timeStart, x.value - t.meterStart))
  }

  /** Every kept reading has become a sample, and the samples of other minutes stay. Where there was one
      sample a minute that is still so, and there are no other samples. */
  ghost predicate FiledAs(t: Transaction, readings: seq<Reading>, before: seq<Sample>, after: seq<Sample>) {
    && (forall k :: Kept(readings, k) ==> SampleOf(t, readings[k]) in after)
    && (forall y :: y in before && Silent(readings, y.time) ==> y in after)
    && (OnePerMinute(before) ==>
          && OnePerMinute(after)
          && forall y :: y in after ==> (y in before && Silent(readings, y.time)) || IsKept(t, readings, y))
  }

  ghost predicate IsKept(t: Transaction, readings: seq<Reading>, y: Sample) {
    exists k :: Kept(readings, k) && y == SampleOf(t, readings[k])
  }

  lemma {:induction false} UpsertKeeps(s: seq<Sample>, x: Sample)
    ensures x in Upsert(s, x)
    ensures forall y :: y in s && MinuteOf(y.time) != MinuteOf(x.time) ==> y in Upsert(s, x)
  {
    if s != [] {
      UpsertKeeps(s[1..], x);
      assert s == [s[0]] + s[1..];
    }
  }

  lemma NextKept(readings: seq<Reading>)
    requires readings != []
    ensures forall k :: Kept(readings[1..], k) ==> Kept(readings, k + 1)
    ensures forall k :: k > 0 && Kept(readings, k) ==> Kept(readings[1..], k - 1)
    ensures Kept(readings, 0) <==> Reports(readings[0]) && Silent(readings[1..], readings[0].time)
    ensures forall time :: Silent(readings, time) <==>
              Silent(readings[1..], time) && (Reports(readings[0]) ==> MinuteOf(readings[0].time) != MinuteOf(time))
  {
    var rest := readings[1..];
    assert forall j :: 0 <= j < |rest| ==> rest[j] == readings[j + 1];
    assert forall j :: 0 < j < |readings| ==> readings[j] == rest[j - 1];
  }

  /** One more reading in front. */
  lemma FiledNext(t: Transaction, readings: seq<Reading>, before: seq<Sample>, after: seq<Sample>)
    requires readings != []
    requires FiledAs(t, readings[1..], if Reports(readings[0]) then Upsert(before, SampleOf(t, readings[0])) else before, after)
    ensures FiledAs(t, readings, before, after)
  {
    var rest, x := readings[1..], SampleOf(t, readings[0]);
    var next := if Reports(readings[0]) then Upsert(before, x) else before;
    NextKept(readings);
    UpsertKeeps(before, x);
    if OnePerMinute(before) {
      UpsertKeyed(before, x);
      forall y | y in after ensures (y in before && Silent(readings, y.time)) || IsKept(t, readings, y) {
        if IsKept(t, rest, y) {
          var k :| Kept(rest, k) && y == SampleOf(t, rest[k]);
          assert Kept(readings, k + 1) && readings[k + 1] == rest[k];
        } else if y == x && Reports(readings[0]) {
          assert Kept(readings, 0);
        }
      }
    }
    forall k | Kept(readings, k) ensures SampleOf(t, readings[k]) in after {
      if k > 0 {
        assert Kept(rest, k - 1) && readings[k] == rest[k - 1];
      }
    }
  }

  lemma {:induction false} ReadingsFiled(h: History, t: Transaction, readings: seq<Reading>, f: Faults)
    requires !f.samples
    ensures var s, s' := Now(h), Now(RecordReadings(h, t, readings, f));
            && s'.transactions == s.transactions
            && (forall i :: i != t.id ==> s'.SamplesOf(i) == s.SamplesOf(i))
            && FiledAs(t, readings, s.SamplesOf(t.id), s'.SamplesOf(t.id))
    decreases |readings|
  {
    if readings != [] {
      var x := readings[0];
      var h' := if x.value > 0
        then Record(h, f.samples, Now(h).UpsertSample(t.id, Sample(x.time, x.value, DueAt(t, x.time, x.value))))
        else h;
      ReadingsFiled(h', t, readings[1..], f);
      FiledNext(t, readings, Now(h).SamplesOf(t.id), Now(RecordReadings(h, t, readings, f)).SamplesOf(t.id));
    }
  }

  /** The readings are filed under a stored transaction and no other; under one that is not stored,
      nowhere. */
  ghost predicate FiledUnder(s: Store, s': Store, id: int, readings: seq<Reading>) {
    if id !in s.transactions then s'.samples == s.samples
    else
      && FiledAs(s.transactions[id], readings, s.SamplesOf(id), s'.SamplesOf(id))
      && forall i :: i != id ==> s'.SamplesOf(i) == s.SamplesOf(i)
  }

  /** Readings that can be saved are filed under the transaction the message names, if it names one;
      else under the one its connector, which must not be number zero, is found to hold; else nowhere. */
  lemma MeterValuesExactly(s: Store, m: Memory, order: seq<Place>, r: MeterRequest, f: Faults)
    requires s.WellKeyed() && Known(s, m, r.place.chargePoint) && !f.read && !f.samples
    ensures var s' := Now(MeterValues([s], m, order, r, f).history);
            var held := PointerFound(s, m, r.place, order).currentTransactionId;
            && s'.transactions == s.transactions
            && if r.id.Some? then FiledUnder(s, s', r.id.value, r.readings)
               else if r.place.number > 0 && held >= 0 then FiledUnder(s, s', held, r.readings)
               else s'.samples == s.samples
  {
    assert Now([s]) == s;
    LocateExactly([s], m, r.place, order, f);
    var l := GetChargePoint([s], m, r.place.chargePoint, order, f);
    var g := GetConnector(l.history, l.memory, r.place, f);
    GetChargePointExactly([s], m, r.place.chargePoint, order, f);
    var id := MeteredTransaction(g.connector, r);
    if id.Some? && id.value in s.transactions {
      ReadingsFiled(g.history, s.transactions[id.value], r.readings, f);
      assert forall i :: Now(g.history).SamplesOf(i) == s.SamplesOf(i);
    }
  }
}
