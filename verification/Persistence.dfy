/** The database, as collections with unique keys (internal/mongo.go). */
module Persistence {
  import opened Domain

  /** What is durably stored. Samples are grouped by transaction; a group holds at most one sample
      per minute, because that is the key they are upserted under. */
  datatype Store = Store(
    transactions: map<int, Transaction>,
    connectors: map<Place, Connector>,
    samples: map<int, seq<Sample>>,
    chargePoints: map<string, string>)  // charge point to its location
  {
    /** An insert under a key that exists is refused. */
    function AddTransaction(t: Transaction): Store {
      if t.id in transactions then this else this.(transactions := transactions[t.id := t])
    }

    /** An update of a document that does not exist changes nothing: no upsert. */
    function UpdateTransaction(t: Transaction): Store {
      if t.id in transactions then this.(transactions := transactions[t.id := t]) else this
    }

    function AddConnector(p: Place, c: Connector): Store {
      if p in connectors then this else this.(connectors := connectors[p := c])
    }

    function UpdateConnector(p: Place, c: Connector): Store {
      if p in connectors then this.(connectors := connectors[p := c]) else this
    }

    function SamplesOf(id: int): seq<Sample> {
      if id in samples then samples[id] else []
    }

    function UpsertSample(id: int, x: Sample): Store {
      this.(samples := samples[id := Upsert(SamplesOf(id), x)])
    }

    function DeleteSamples(id: int): Store {
      this.(samples := samples - {id})
    }

    function AddChargePoint(cp: string): Store {
      if cp in chargePoints then this else this.(chargePoints := chargePoints[cp := ""])
    }

    ghost predicate WellKeyed() {
      forall i :: i in transactions ==> transactions[i].id == i
    }
  }

  function Upsert(s: seq<Sample>, x: Sample): seq<Sample> {
    if s == [] then [x]
    else if MinuteOf(s[0].time) == MinuteOf(x.time) then [x] + s[1..]
    else [s[0]] + Upsert(s[1..], x)
  }

  /** The sample a descending sort by time puts first. */
  function Newest(s: seq<Sample>): (r: Option<Sample>)
    ensures r.None? <==> s == []
    ensures r.Some? ==> r.value in s && forall x :: x in s ==> x.time <= r.value.time
  {
    if s == [] then None
    else match Newest(s[1..])
      case None => Some(s[0])
      case Some(n) => if s[0].time >= n.time then Some(s[0]) else Some(n)
  }

  ghost predicate OnePerMinute(s: seq<Sample>) {
    forall i, j :: 0 <= i < j < |s| ==> MinuteOf(s[i].time) != MinuteOf(s[j].time)
  }

  /** An upsert keeps one sample per minute, stores the new sample, and keeps exactly the old
      samples of the other minutes. */
  lemma {:induction false} UpsertKeyed(s: seq<Sample>, x: Sample)
    requires OnePerMinute(s)
    ensures OnePerMinute(Upsert(s, x))
    ensures forall y :: y in Upsert(s, x) <==> y == x || (y in s && MinuteOf(y.time) != MinuteOf(x.time))
  {
    if s == [] {
    } else if MinuteOf(s[0].time) == MinuteOf(x.time) {
      assert forall y :: y in s[1..] ==> MinuteOf(y.time) != MinuteOf(x.time);
      assert s == [s[0]] + s[1..];
    } else {
      UpsertKeyed(s[1..], x);
      var r := Upsert(s[1..], x);
      assert s == [s[0]] + s[1..];
      forall y | y in r ensures MinuteOf(y.time) != MinuteOf(s[0].time) {
        if y != x { var k :| 0 <= k < |s[1..]| && s[1..][k] == y; }
      }
    }
  }

  /** The newest sample is unique, so "the last sample by time" names one document whatever order
      the collection is read in. */
  lemma NewestUnique(s: seq<Sample>, x: Sample)
    requires OnePerMinute(s) && x in s
    requires forall y :: y in s ==> y.time <= x.time
    ensures Newest(s) == Some(x)
  {
    var n := Newest(s).value;
    var i :| 0 <= i < |s| && s[i] == x;
    var j :| 0 <= j < |s| && s[j] == n;
  }

  /** The durable states passed through so far, the current one last. */
  type History = h: seq<Store> | |h| > 0 witness [Store(map[], map[], map[], map[])]

  function Now(h: History): Store {
    h[|h| - 1]
  }

  /** A write that lands adds a state; one that fails leaves the database as it was. */
  function Record(h: History, fails: bool, next: Store): History {
    if fails then h else h + [next]
  }

  datatype Lookup<+T> = Found(value: T) | NotFound | Unreadable

  /** The connection to the database. Every operation is told whether it fails. */
  class Database {
    var transactions: map<int, Transaction>
    var connectors: map<Place, Connector>
    var samples: map<int, seq<Sample>>
    var chargePoints: map<string, string>
    ghost var history: History

    constructor (s: Store)
      ensures Valid() && State() == s && history == [s]
    {
      transactions, connectors, samples, chargePoints := s.transactions, s.connectors, s.samples, s.chargePoints;
      history := [s];
    }

    function State(): Store
      reads this
    {
      Store(transactions, connectors, samples, chargePoints)
    }

    ghost predicate Valid()
      reads this
    {
      Now(history) == State()
    }

    method GetTransaction(id: int, fails: bool) returns (r: Lookup<Transaction>)
      ensures r == if fails then Unreadable else if id in transactions then Found(transactions[id]) else NotFound
    {
      r := if fails then Unreadable else if id in transactions then Found(transactions[id]) else NotFound;
    }

    method AddTransaction(t: Transaction, fails: bool)
      requires Valid()
      modifies this
      ensures Valid() && history == Record(old(history), fails, old(State()).AddTransaction(t))
    {
      if !fails {
        if t.id !in transactions {
          transactions := transactions[t.id := t];
        }
        history := history + [State()];
      }
    }

    method UpdateTransaction(t: Transaction, fails: bool)
      requires Valid()
      modifies this
      ensures Valid() && history == Record(old(history), fails, old(State()).UpdateTransaction(t))
    {
      if !fails {
        if t.id in transactions {
          transactions := transactions[t.id := t];
        }
        history := history + [State()];
      }
    }

    method AddConnector(p: Place, c: Connector, fails: bool)
      requires Valid()
      modifies this
      ensures Valid() && history == Record(old(history), fails, old(State()).AddConnector(p, c))
    {
      if !fails {
        if p !in connectors {
          connectors := connectors[p := c];
        }
        history := history + [State()];
      }
    }

    method UpdateConnector(p: Place, c: Connector, fails: bool)
      requires Valid()
      modifies this
      ensures Valid() && history == Record(old(history), fails, old(State()).UpdateConnector(p, c))
    {
      if !fails {
        if p in connectors {
          connectors := connectors[p := c];
        }
        history := history + [State()];
      }
    }

    method AddTransactionMeterValue(id: int, x: Sample, fails: bool)
      requires Valid()
      modifies this
      ensures Valid() && history == Record(old(history), fails, old(State()).UpsertSample(id, x))
    {
      if !fails {
        samples := samples[id := Upsert(State().SamplesOf(id), x)];
        history := history + [State()];
      }
    }

    method ReadTransactionMeterValue(id: int, fails: bool) returns (r: Option<Sample>)
      ensures r == if fails then None else Newest(State().SamplesOf(id))
    {
      r := if fails then None else Newest(State().SamplesOf(id));
    }

    method DeleteTransactionMeterValues(id: int, fails: bool)
      requires Valid()
      modifies this
      ensures Valid() && history == Record(old(history), fails, old(State()).DeleteSamples(id))
    {
      if !fails {
        samples := samples - {id};
        history := history + [State()];
      }
    }

    method AddChargePoint(cp: string, fails: bool)
      requires Valid()
      modifies this
      ensures Valid() && history == Record(old(history), fails, old(State()).AddChargePoint(cp))
    {
      if !fails {
        if cp !in chargePoints {
          chargePoints := chargePoints[cp := ""];
        }
        history := history + [State()];
      }
    }

    /** The connector documents, in whatever order the cursor yields them. */
    method ListConnectors() returns (order: seq<Place>)
      ensures ListsConnectors(order, State())
    {
      order := [];
      var rest := connectors.Keys;
      while rest != {}
        invariant rest <= connectors.Keys
        invariant forall p :: p in connectors ==> (p in order <==> p !in rest)
        invariant forall p :: p in order ==> p in connectors
        invariant forall i, j :: 0 <= i < j < |order| ==> order[i] != order[j]
        decreases rest
      {
        var p := Pick(rest);
        rest := rest - {p};
        order := order + [p];
      }
    }

    /** The transaction documents, in whatever order the cursor yields them. */
    method ListTransactions() returns (ts: seq<Transaction>)
      requires State().WellKeyed()
      ensures ListsTransactions(ts, State())
    {
      ts := [];
      var rest := transactions.Keys;
      while rest != {}
        invariant rest <= transactions.Keys
        invariant forall i :: i in transactions ==> (transactions[i] in ts <==> i !in rest)
        invariant forall t :: t in ts ==> t.id in transactions && transactions[t.id] == t
        invariant forall i, j :: 0 <= i < j < |ts| ==> ts[i].id != ts[j].id
        decreases rest
      {
        var i := Pick(rest);
        rest := rest - {i};
        ts := ts + [transactions[i]];
      }
    }

    /** The highest transaction id, which is what GetLastTransaction sorts for. */
    method GetLastTransactionId(fails: bool) returns (r: Option<int>)
      ensures r == if fails then None else LastId(State())
    {
      r := None;
      if !fails {
        var rest := transactions.Keys;
        while rest != {}
          invariant rest <= transactions.Keys
          invariant r.None? ==> rest == transactions.Keys
          invariant r.Some? ==> r.value in transactions
          invariant forall i :: i in transactions && i !in rest ==> r.Some? && i <= r.value
          decreases rest
        {
          var i := Pick(rest);
          rest := rest - {i};
          if r == None || r.value < i {
            r := Some(i);
          }
        }
        LastIdUnique(State(), r);
      }
    }
  }

  ghost predicate ListsConnectors(order: seq<Place>, s: Store) {
    && (forall p :: p in order <==> p in s.connectors)
    && (forall i, j :: 0 <= i < j < |order| ==> order[i] != order[j])
  }

  ghost predicate ListsTransactions(ts: seq<Transaction>, s: Store) {
    && (forall i :: i in s.transactions ==> s.transactions[i] in ts)
    && (forall t :: t in ts ==> t.id in s.transactions && s.transactions[t.id] == t)
    && (forall i, j :: 0 <= i < j < |ts| ==> ts[i].id != ts[j].id)
  }

  ghost function LastId(s: Store): (r: Option<int>)
    ensures r.None? <==> s.transactions == map[]
    ensures r.Some? ==> r.value in s.transactions && forall i :: i in s.transactions ==> i <= r.value
  {
    if s.transactions == map[] then None
    else
      assert s.transactions.Keys != {};
      Some(MaxOf(s.transactions.Keys))
  }

  ghost function MaxOf(ids: set<int>): (m: int)
    requires ids != {}
    ensures m in ids && forall i :: i in ids ==> i <= m
  {
    var i := Choose(ids);
    if ids == {i} then i
    else
      var rest := ids - {i};
      assert forall j :: j in ids ==> j == i || j in rest;
      Max(i, MaxOf(rest))
  }

  lemma LastIdUnique(s: Store, r: Option<int>)
    requires r.None? ==> s.transactions.Keys == {}
    requires r.Some? ==> r.value in s.transactions && forall i :: i in s.transactions ==> i <= r.value
    ensures r == LastId(s)
  {
    if r.None? {
      assert s.transactions == map[];
    }
  }
}
