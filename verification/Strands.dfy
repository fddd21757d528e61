/** Exactly when a stop or a sweep's release keeps pointers sound, whatever fails in it. */
module Strands {
  import opened Domain
  import opened Persistence
  import opened Sessions
  import opened Loading
  import opened Pointers
  import opened Safety

  // ---------- stops ----------

  /** A stop that has no pointer to change: its charge point is not found, or is in memory and, if the
      row can be read, its connector is stored and holds nothing. */
  ghost predicate NothingToFree(s: Store, m: Memory, r: StopRequest, f: Faults) {
    Known(s, m, r.chargePoint) ==>
      && r.chargePoint in m.chargePoints
      && (f.read || r.id !in s.transactions || Free(s, Place(r.chargePoint, s.transactions[r.id].place.number)))
  }

  ghost predicate Free(s: Store, p: Place) {
    p in s.connectors && s.connectors[p].currentTransactionId < 0
  }

  /** A stop keeps pointers sound exactly when it is harmless or could not read or write the row, and it
      could write the connector or had nothing to free. */
  lemma StopSoundExactly(s: Store, m: Memory, order: seq<Place>, r: StopRequest, f: Faults, closing: set<int>)
    requires Calm([s], m, closing) && (Complete(s, m) || (!f.read && !f.connector))
    ensures var o := StopTransaction([s], m, order, r, f);
            Steady(Now(o.history), o.memory, closing)
            <==> (Harmless(s, m, closing, r) || f.updateTransaction || f.read) && (f.connector ==> NothingToFree(s, m, r, f))
  {
    assert Now([s]) == s;
    if !f.connector {
      StopTracked(s, m, order, r, f, closing);
    } else if !Known(s, m, r.chargePoint) || r.chargePoint !in m.chargePoints || f.read || r.id !in s.transactions {
      StopLooksUp(s, m, order, r, f, closing);
    } else {
      StopUnwritten(s, m, order, r, f, closing);
    }
  }

  /** The stop goes no further than looking up its charge point. */
  lemma StopLooksUp(s: Store, m: Memory, order: seq<Place>, r: StopRequest, f: Faults, closing: set<int>)
    requires Calm([s], m, closing) && Complete(s, m) && f.connector
    requires !Known(s, m, r.chargePoint) || r.chargePoint !in m.chargePoints || f.read || r.id !in s.transactions
    ensures var o := StopTransaction([s], m, order, r, f);
            Steady(Now(o.history), o.memory, closing) <==> (Known(s, m, r.chargePoint) ==> r.chargePoint in m.chargePoints)
  {
    assert Now([s]) == s;
    var o := StopTransaction([s], m, order, r, f);
    if Known(s, m, r.chargePoint) && r.chargePoint !in m.chargePoints {
      NewPointUnwritten(s, m, order, r, f);
    } else {
      assert o.memory == m && Now(o.history) == s;
    }
  }

  /** A charge point that cannot be registered is in memory all the same. */
  lemma NewPointUnwritten(s: Store, m: Memory, order: seq<Place>, r: StopRequest, f: Faults)
    requires s.chargePoints.Keys <= m.chargePoints && f.connector
    requires Known(s, m, r.chargePoint) && r.chargePoint !in m.chargePoints
    ensures var o := StopTransaction([s], m, order, r, f); !Synced(Now(o.history), o.memory)
  {
    var o := StopTransaction([s], m, order, r, f);
    assert Now([s]) == s && r.chargePoint !in s.chargePoints;
    assert r.chargePoint in o.memory.chargePoints;
    assert Now(o.history).chargePoints == s.chargePoints;
  }

  lemma StopUnwritten(s: Store, m: Memory, order: seq<Place>, r: StopRequest, f: Faults, closing: set<int>)
    requires Calm([s], m, closing) && Complete(s, m) && f.connector && !f.read
    requires r.chargePoint in m.chargePoints && r.id in s.transactions
    ensures var o := StopTransaction([s], m, order, r, f);
            Steady(Now(o.history), o.memory, closing)
            <==> (Harmless(s, m, closing, r) || f.updateTransaction)
                 && Free(s, Place(r.chargePoint, s.transactions[r.id].place.number))
  {
    assert Now([s]) == s;
    var o := StopTransaction([s], m, order, r, f);
    UnwrittenShape(s, m, order, r, f);
    StopFiguresKeeps(s.transactions[r.id], r);
    UnwrittenSteady(s, m, Now(o.history), o.memory, r, f, closing);
  }

  lemma UnwrittenSteady(s: Store, m: Memory, s': Store, m': Memory, r: StopRequest, f: Faults, closing: set<int>)
    requires Calm([s], m, closing) && r.chargePoint in m.chargePoints && r.id in s.transactions
    requires Unwritten(s, m, s', m', r, f)
    requires var t := StopFigures(s.transactions[r.id], r); t.id == r.id && t.finished
    ensures Steady(s', m', closing)
            <==> (Harmless(s, m, closing, r) || f.updateTransaction)
                 && Free(s, Place(r.chargePoint, s.transactions[r.id].place.number))
  {
    assert Now([s]) == s;
    var t := s.transactions[r.id];
    var p := Place(r.chargePoint, t.place.number);
    if !Free(s, p) {
      assert m'.connectors[p] == FREE;
    } else if Harmless(s, m, closing, r) || f.updateTransaction {
      forall q | q in s'.connectors && s'.connectors[q].currentTransactionId == r.id && s'.transactions[r.id].finished
        ensures r.id in closing
      {
        assert PointsTo(s, q, r.id) && t.place == q;
      }
    } else {
      assert PointsTo(s, t.place, r.id) && PointsTo(s', t.place, r.id);
    }
  }

  /** No connector document changes, and the connector is free in memory. */
  ghost predicate Unwritten(s: Store, m: Memory, s': Store, m': Memory, r: StopRequest, f: Faults)
    requires r.id in s.transactions
  {
    var t := s.transactions[r.id];
    && s'.connectors == s.connectors && s'.chargePoints == s.chargePoints && m'.chargePoints == m.chargePoints
    && m'.connectors == m.connectors[Place(r.chargePoint, t.place.number) := FREE]
    && s'.transactions == if AlreadyStopped(t, r) || f.updateTransaction then s.transactions
                          else s.transactions[r.id := StopFigures(t, r)]
  }

  lemma UnwrittenShape(s: Store, m: Memory, order: seq<Place>, r: StopRequest, f: Faults)
    requires f.connector && !f.read && r.chargePoint in m.chargePoints && r.id in s.transactions
    requires s.transactions[r.id].id == r.id
    ensures var o := StopTransaction([s], m, order, r, f); Unwritten(s, m, Now(o.history), o.memory, r, f)
  {
    assert Now([s]) == s;
    var t := s.transactions[r.id];
    var p := Place(r.chargePoint, t.place.number);
    var g := GetConnector([s], m, p, f);
    FoundUnwritten(s, m, p, f);
    StopFiguresKeeps(t, r);
    CloseRowRows(g.history, StopFigures(t, r), f);
  }

  lemma FoundUnwritten(s: Store, m: Memory, p: Place, f: Faults)
    requires f.connector
    ensures var g := GetConnector([s], m, p, f);
            g.history == [s] && g.memory.chargePoints == m.chargePoints
            && g.memory.connectors[p := FREE] == m.connectors[p := FREE]
  {
  }

  lemma CloseRowRows(h: History, t: Transaction, f: Faults)
    requires t.id in Now(h).transactions
    ensures var s, s' := Now(h), Now(CloseRow(h, t, f));
            && s'.connectors == s.connectors && s'.chargePoints == s.chargePoints
            && s'.transactions == if f.updateTransaction then s.transactions else s.transactions[t.id := t]
  {
  }

  // ---------- releases ----------

  /** A release that has no pointer to change: its charge point is not found, or is in memory and its
      connector is known and holds something else. */
  ghost predicate NothingToRelease(s: Store, m: Memory, p: Place, id: int) {
    Known(s, m, p.chargePoint) ==>
      && p.chargePoint in m.chargePoints
      && if p in m.connectors then m.connectors[p].currentTransactionId != id else p in s.connectors
  }

  /** A release keeps pointers sound exactly when it could write the connector or had nothing to
      release. Memory has to be complete, or to have the connector, unless documents can be read and
      connectors written. */
  lemma ReleaseSoundExactly(s: Store, m: Memory, order: seq<Place>, t: Transaction, f: Faults, closing: set<int>, closing': set<int>)
    requires Calm([s], m, closing) && t.id in s.transactions && s.transactions[t.id].place == t.place
    requires closing <= closing' + {t.id}
    requires Complete(s, m) || (!f.read && !f.connector) || (t.place in m.connectors && t.place.chargePoint in m.chargePoints)
    ensures var l := ReleaseSwept([s], m, order, t, f);
            Steady(Now(l.history), l.memory, closing') <==> !f.connector || NothingToRelease(s, m, t.place, t.id)
  {
    assert Now([s]) == s;
    var l := ReleaseSwept([s], m, order, t, f);
    if !f.connector {
      var sighted := f.(read := f.read && Complete(s, m));
      assert l == ReleaseSwept([s], m, order, t, sighted);
      ReleaseEffect([s], m, order, t, sighted, closing, closing');
    } else {
      ReleaseUnwritten(s, m, order, t, f, closing, closing');
    }
  }

  lemma ReleaseUnwritten(s: Store, m: Memory, order: seq<Place>, t: Transaction, f: Faults, closing: set<int>, closing': set<int>)
    requires Calm([s], m, closing) && t.id in s.transactions && s.transactions[t.id].place == t.place
    requires closing <= closing' + {t.id} && f.connector
    requires Complete(s, m) || (t.place in m.connectors && t.place.chargePoint in m.chargePoints)
    ensures var l := ReleaseSwept([s], m, order, t, f);
            Steady(Now(l.history), l.memory, closing') <==> NothingToRelease(s, m, t.place, t.id)
  {
    assert Now([s]) == s;
    var l := ReleaseSwept([s], m, order, t, f);
    var p := t.place;
    if NothingToRelease(s, m, p, t.id) {
      assert Now(l.history) == s;
      assert !PointsTo(s, p, t.id);
      NoneHolds(s, t);
      LiveWithout(s, t.id, closing, closing');
    } else if p.chargePoint !in m.chargePoints {
      assert p.chargePoint !in s.chargePoints && Now(l.history).chargePoints == s.chargePoints;
      assert p.chargePoint in l.memory.chargePoints;
    } else if p in m.connectors {
      assert PointsTo(s, p, t.id) && Now(l.history) == s && l.memory.connectors[p] == FREE;
    } else {
      assert p !in Now(l.history).connectors && p in l.memory.connectors;
    }
  }
}
