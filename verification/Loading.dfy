/** What loading charge points and connectors leaves behind when documents can be read. */
module Loading {
  import opened Domain
  import opened Persistence
  import opened Sessions

  /** A connector as it enters memory at start-up. */
  ghost function Loaded(s: Store, p: Place): Connector
    requires p in s.connectors
  {
    var c := s.connectors[p];
    if c.currentTransactionId != -1 && PointsAtFinished(s, c) then FREE else c
  }

  ghost function LoadedOne(s: Store, p: Place): map<Place, Connector> {
    if p in s.connectors then map[p := Loaded(s, p)] else map[]
  }

  ghost function LoadedMap(s: Store, cps: set<string>, order: seq<Place>): (r: map<Place, Connector>)
    ensures forall p :: p in r <==> p in s.connectors && p in order && p.chargePoint in cps
    ensures forall p :: p in r ==> r[p] == Loaded(s, p)
    decreases |order|
  {
    if order == [] then map[]
    else
      assert forall q :: q in order <==> q == order[0] || q in order[1..];
      var rest := LoadedMap(s, cps, order[1..]);
      if order[0].chargePoint !in cps then rest else LoadedOne(s, order[0]) + rest
  }

  ghost function Overlay(s: Store, fails: bool, c: map<Place, Connector>): Store {
    if fails then s else s.(connectors := s.connectors + c)
  }

  lemma LoadConnectorExactly(h: History, m: Memory, p: Place, f: Faults)
    requires !f.read
    ensures var l := LoadConnector(h, m, p, f);
            && l.memory == m.(connectors := m.connectors + LoadedOne(Now(h), p))
            && Now(l.history) == Overlay(Now(h), f.connector, LoadedOne(Now(h), p))
  {
    var s := Now(h);
    if p in s.connectors {
      assert s.connectors + map[p := Loaded(s, p)] == s.connectors[p := Loaded(s, p)];
      assert m.connectors + map[p := Loaded(s, p)] == m.connectors[p := Loaded(s, p)];
      if Loaded(s, p) == s.connectors[p] {
        assert s.connectors[p := s.connectors[p]] == s.connectors;
      }
    } else {
      assert s.connectors + map[] == s.connectors && m.connectors + map[] == m.connectors;
    }
  }

  /** What is cleared once stays cleared: loading one connector does not change what another loads as. */
  lemma LoadedOneStable(s: Store, fails: bool, p: Place, q: Place)
    ensures LoadedOne(Overlay(s, fails, LoadedOne(s, p)), q) == LoadedOne(s, q)
  {
  }

  lemma {:induction false} LoadedMapStable(s: Store, fails: bool, p: Place, cps: set<string>, order: seq<Place>)
    ensures LoadedMap(Overlay(s, fails, LoadedOne(s, p)), cps, order) == LoadedMap(s, cps, order)
    decreases |order|
  {
    if order != [] {
      LoadedOneStable(s, fails, p, order[0]);
      LoadedMapStable(s, fails, p, cps, order[1..]);
    }
  }

  lemma PlusAssociative<K, V>(a: map<K, V>, b: map<K, V>, c: map<K, V>)
    ensures (a + b) + c == a + (b + c)
  {
  }

  /** Loading in any order: every listed connector of the charge points enters memory, cleared if it
      points at a finished transaction, and the same clearing reaches the database if it can be
      written. Nothing else changes. */
  lemma {:induction false} LoadConnectorsExactly(h: History, m: Memory, cps: set<string>, order: seq<Place>, f: Faults)
    requires !f.read
    ensures var l := LoadConnectors(h, m, cps, order, f);
            var loaded := LoadedMap(Now(h), cps, order);
            && l.found
            && l.memory == m.(connectors := m.connectors + loaded)
            && Now(l.history) == Overlay(Now(h), f.connector, loaded)
    decreases |order|
  {
    var s := Now(h);
    if order == [] {
      assert s.connectors + map[] == s.connectors && m.connectors + map[] == m.connectors;
    } else if order[0].chargePoint !in cps {
      LoadConnectorsExactly(h, m, cps, order[1..], f);
    } else {
      var l := LoadConnector(h, m, order[0], f);
      LoadConnectorExactly(h, m, order[0], f);
      LoadConnectorsExactly(l.history, l.memory, cps, order[1..], f);
      LoadedMapStable(s, f.connector, order[0], cps, order[1..]);
      var head, tail := LoadedOne(s, order[0]), LoadedMap(s, cps, order[1..]);
      PlusAssociative(m.connectors, head, tail);
      PlusAssociative(s.connectors, head, tail);
    }
  }

  /** The charge points a message may come from. */
  predicate Known(s: Store, m: Memory, cp: string) {
    cp in m.chargePoints || cp in s.chargePoints || (m.acceptPoints && cp != "")
  }

  ghost function LoadedFor(s: Store, m: Memory, cp: string, order: seq<Place>): map<Place, Connector> {
    if cp in m.chargePoints || cp !in s.chargePoints then map[] else LoadedMap(s, {cp}, order)
  }

  /** Looking a charge point up finds exactly the known ones. It loads a charge point's connectors
      on first use and registers an unknown one if that is allowed; nothing else changes. */
  lemma GetChargePointExactly(h: History, m: Memory, cp: string, order: seq<Place>, f: Faults)
    requires !f.read
    ensures var l := GetChargePoint(h, m, cp, order, f);
            var loaded := LoadedFor(Now(h), m, cp, order);
            && (l.found <==> Known(Now(h), m, cp))
            && l.memory == m.(connectors := m.connectors + loaded,
                              chargePoints := if l.found then m.chargePoints + {cp} else m.chargePoints)
            && Now(l.history).transactions == Now(h).transactions && Now(l.history).samples == Now(h).samples
            && Now(l.history).connectors == Overlay(Now(h), f.connector, loaded).connectors
            && Now(h).chargePoints.Keys <= Now(l.history).chargePoints.Keys <= Now(h).chargePoints.Keys + {cp}
            && (!l.found ==> Now(l.history).chargePoints == Now(h).chargePoints)
            && (!f.connector && cp in l.memory.chargePoints && m.chargePoints <= Now(h).chargePoints.Keys ==>
                  l.memory.chargePoints <= Now(l.history).chargePoints.Keys)
  {
    OverlayNothing(Now(h), m);
    if cp in m.chargePoints {
      assert m.chargePoints + {cp} == m.chargePoints;
    } else if cp in Now(h).chargePoints {
      LoadConnectorsExactly(h, m.(chargePoints := m.chargePoints + {cp}), {cp}, order, f);
    }
  }

  lemma OverlayNothing(s: Store, m: Memory)
    ensures s.connectors + map[] == s.connectors && m.connectors + map[] == m.connectors
  {
  }

  /** The pointer a handler finds for a connector: the one in memory, else the stored one - cleared
      on the way in when its charge point is loaded now - else that of a new connector. */
  ghost function PointerFound(s: Store, m: Memory, p: Place, order: seq<Place>): Connector {
    if p in m.connectors && p !in LoadedFor(s, m, p.chargePoint, order) then m.connectors[p]
    else if p in LoadedFor(s, m, p.chargePoint, order) then Loaded(s, p)
    else if p in s.connectors then s.connectors[p]
    else FREE
  }

  /** Locating a connector of a known charge point: memory and database agree on which pointer is
      found, rows and samples are untouched, and no other pointer changes in either. */
  lemma LocateExactly(h: History, m: Memory, p: Place, order: seq<Place>, f: Faults)
    requires !f.read && Known(Now(h), m, p.chargePoint)
    ensures var l := GetChargePoint(h, m, p.chargePoint, order, f);
            var g := GetConnector(l.history, l.memory, p, f);
            && g.connector == PointerFound(Now(h), m, p, order)
            && p in g.memory.connectors && g.memory.connectors[p] == g.connector
            && p.chargePoint in g.memory.chargePoints && g.memory.acceptPoints == m.acceptPoints
            && Now(g.history).transactions == Now(h).transactions && Now(g.history).samples == Now(h).samples
            && g.memory.nextId == m.nextId
  {
    GetChargePointExactly(h, m, p.chargePoint, order, f);
  }

  /** A status message writes the connector back with the pointer it is found to hold. One that speaks of
      the charge point as a whole, as connector zero, or of an unknown one creates no connector. */
  lemma StatusExactly(s: Store, m: Memory, order: seq<Place>, p: Place, f: Faults)
    requires !f.read
    ensures var o := StatusNotification([s], m, order, p, f);
            var s', c := Now(o.history), PointerFound(s, m, p, order);
            && s'.transactions == s.transactions && s'.samples == s.samples
            && (p.number <= 0 || !Known(s, m, p.chargePoint) ==> s'.connectors.Keys == s.connectors.Keys)
            && (p.number > 0 && Known(s, m, p.chargePoint) ==>
                  && p in o.memory.connectors && o.memory.connectors[p] == c
                  && (!f.connector && p in s'.connectors ==> s'.connectors[p] == c))
            && s.connectors.Keys <= s'.connectors.Keys
  {
    LookUpKeeps(s, m, p.chargePoint, order, f);
    var l := GetChargePoint([s], m, p.chargePoint, order, f);
    if p.number > 0 && l.found {
      assert Now([s]) == s;
      LocateExactly([s], m, p, order, f);
      RewriteExactly(l.history, l.memory, p, f);
    }
  }

  lemma LookUpKeeps(s: Store, m: Memory, cp: string, order: seq<Place>, f: Faults)
    requires !f.read
    ensures var l := GetChargePoint([s], m, cp, order, f);
            && (l.found <==> Known(s, m, cp)) && Now(l.history).connectors.Keys == s.connectors.Keys
            && Now(l.history).transactions == s.transactions && Now(l.history).samples == s.samples
  {
    assert Now([s]) == s;
    GetChargePointExactly([s], m, cp, order, f);
  }

  lemma RewriteExactly(h: History, m: Memory, p: Place, f: Faults)
    ensures var g := GetConnector(h, m, p, f);
            var u := PutConnector(g.history, g.memory, p, g.connector, f);
            var s, s' := Now(h), Now(u.history);
            && s'.transactions == s.transactions && s'.samples == s.samples && s.connectors.Keys <= s'.connectors.Keys
            && p in u.memory.connectors && u.memory.connectors[p] == g.connector
            && (!f.connector && p in s'.connectors ==> s'.connectors[p] == g.connector)
  {
  }
}
