/** Today's consumed energy per location and charge point, and the gauges that show it
    (internal/mongo.go, server/system_handler.go, metrics/counters/metrics.go). */
module ConsumedEnergy {
  import opened Domain

  const DAY := 24 * 60 * MINUTE

  /** Times are nanoseconds since the epoch, in UTC. */
  function StartOfDay(now: int): int {
    now - now % DAY
  }

  predicate FinishedToday(t: Transaction, now: int) {
    t.finished && StartOfDay(now) <= t.timeStop < StartOfDay(now) + DAY
  }

  datatype Key = Key(location: string, chargePoint: string)

  datatype Group = Group(key: Key, consumed: int, count: int)

  /** The location comes from the charge point's document; without one it is empty. */
  function KeyOf(t: Transaction, locations: map<string, string>): Key {
    var cp := t.place.chargePoint;
    Key(if cp in locations then locations[cp] else "", cp)
  }

  /** A meter that went backwards delivered nothing. */
  function Energy(t: Transaction): int {
    Max(0, t.meterStop - t.meterStart)
  }

  // ---------- the aggregation ----------

  function Matching(all: seq<Transaction>, now: int): seq<Transaction> {
    if all == [] then []
    else (if FinishedToday(all[0], now) then [all[0]] else []) + Matching(all[1..], now)
  }

  /** One more row: its group grows, or a new group is opened. */
  function Grow(groups: seq<Group>, key: Key, energy: int): seq<Group> {
    if groups == [] then [Group(key, energy, 1)]
    else if groups[0].key == key then [Group(key, groups[0].consumed + energy, groups[0].count + 1)] + groups[1..]
    else [groups[0]] + Grow(groups[1..], key, energy)
  }

  function GroupRows(rows: seq<Transaction>, locations: map<string, string>): seq<Group> {
    if rows == [] then []
    else Grow(GroupRows(rows[..|rows| - 1], locations), KeyOf(rows[|rows| - 1], locations), Energy(rows[|rows| - 1]))
  }

  function GetTodayConsumedEnergy(all: seq<Transaction>, locations: map<string, string>, now: int): seq<Group> {
    GroupRows(Matching(all, now), locations)
  }

  // ---------- what it means ----------

  predicate Counted(t: Transaction, locations: map<string, string>, now: int, key: Key) {
    FinishedToday(t, now) && KeyOf(t, locations) == key
  }

  /** The energy and the number of today's finished transactions of one location and charge point,
      taken over the whole collection. */
  function EnergyOf(all: seq<Transaction>, locations: map<string, string>, now: int, key: Key): int {
    if all == [] then 0
    else (if Counted(all[0], locations, now, key) then Energy(all[0]) else 0) + EnergyOf(all[1..], locations, now, key)
  }

  function CountOf(all: seq<Transaction>, locations: map<string, string>, now: int, key: Key): nat {
    if all == [] then 0
    else (if Counted(all[0], locations, now, key) then 1 else 0) + CountOf(all[1..], locations, now, key)
  }

  function TotalEnergy(all: seq<Transaction>, now: int): int {
    if all == [] then 0 else (if FinishedToday(all[0], now) then Energy(all[0]) else 0) + TotalEnergy(all[1..], now)
  }

  function TotalCount(all: seq<Transaction>, now: int): nat {
    if all == [] then 0 else (if FinishedToday(all[0], now) then 1 else 0) + TotalCount(all[1..], now)
  }

  /** What a list of groups says about one key. */
  function ConsumedIn(groups: seq<Group>, key: Key): int {
    if groups == [] then 0 else (if groups[0].key == key then groups[0].consumed else 0) + ConsumedIn(groups[1..], key)
  }

  function CountIn(groups: seq<Group>, key: Key): int {
    if groups == [] then 0 else (if groups[0].key == key then groups[0].count else 0) + CountIn(groups[1..], key)
  }

  predicate Lists(groups: seq<Group>, key: Key) {
    groups != [] && (groups[0].key == key || Lists(groups[1..], key))
  }

  /** No key twice, and no group without rows. */
  predicate Proper(groups: seq<Group>) {
    groups == [] || (groups[0].count > 0 && !Lists(groups[1..], groups[0].key) && Proper(groups[1..]))
  }

  /** A group list that says of every key what the collection holds, in any order. */
  ghost predicate Agrees(groups: seq<Group>, all: seq<Transaction>, locations: map<string, string>, now: int) {
    && Proper(groups)
    && (forall key :: ConsumedIn(groups, key) == EnergyOf(all, locations, now, key) && CountIn(groups, key) == CountOf(all, locations, now, key))
  }

  lemma {:induction false} MatchingSame(all: seq<Transaction>, locations: map<string, string>, now: int, key: Key)
    ensures EnergyOf(Matching(all, now), locations, now, key) == EnergyOf(all, locations, now, key)
    ensures CountOf(Matching(all, now), locations, now, key) == CountOf(all, locations, now, key)
  {
    if all != [] {
      MatchingSame(all[1..], locations, now, key);
      if FinishedToday(all[0], now) {
        assert Matching(all, now)[1..] == Matching(all[1..], now);
      } else {
        assert Matching(all, now) == Matching(all[1..], now);
      }
    }
  }

  lemma {:induction false} MatchingFinished(all: seq<Transaction>, now: int)
    ensures forall t :: t in Matching(all, now) ==> FinishedToday(t, now)
  {
    if all != [] {
      MatchingFinished(all[1..], now);
    }
  }

  lemma {:induction false} OneMore(rows: seq<Transaction>, t: Transaction, locations: map<string, string>, now: int, key: Key)
    ensures EnergyOf(rows + [t], locations, now, key)
         == EnergyOf(rows, locations, now, key) + if Counted(t, locations, now, key) then Energy(t) else 0
    ensures CountOf(rows + [t], locations, now, key)
         == CountOf(rows, locations, now, key) + if Counted(t, locations, now, key) then 1 else 0
  {
    if rows != [] {
      OneMore(rows[1..], t, locations, now, key);
      assert (rows + [t])[1..] == rows[1..] + [t];
    }
  }

  lemma {:induction false} GrowAdds(groups: seq<Group>, key: Key, energy: int, other: Key)
    ensures ConsumedIn(Grow(groups, key, energy), other) == ConsumedIn(groups, other) + if other == key then energy else 0
    ensures CountIn(Grow(groups, key, energy), other) == CountIn(groups, other) + if other == key then 1 else 0
    decreases |groups|
  {
    if groups != [] {
      if groups[0].key == key {
        assert Grow(groups, key, energy)[1..] == groups[1..];
      } else {
        GrowAdds(groups[1..], key, energy, other);
        assert Grow(groups, key, energy)[1..] == Grow(groups[1..], key, energy);
      }
    }
  }

  lemma {:induction false} GrowLists(groups: seq<Group>, key: Key, energy: int, other: Key)
    ensures Lists(Grow(groups, key, energy), other) <==> other == key || Lists(groups, other)
    decreases |groups|
  {
    if groups != [] && groups[0].key != key {
      GrowLists(groups[1..], key, energy, other);
      assert Grow(groups, key, energy)[1..] == Grow(groups[1..], key, energy);
    } else if groups != [] {
      assert Grow(groups, key, energy)[1..] == groups[1..];
    }
  }

  lemma {:induction false} GrowProper(groups: seq<Group>, key: Key, energy: int)
    requires Proper(groups)
    ensures Proper(Grow(groups, key, energy))
    decreases |groups|
  {
    if groups != [] && groups[0].key != key {
      GrowProper(groups[1..], key, energy);
      GrowLists(groups[1..], key, energy, groups[0].key);
      assert Grow(groups, key, energy)[1..] == Grow(groups[1..], key, energy);
    } else if groups != [] {
      assert Grow(groups, key, energy)[1..] == groups[1..];
    }
  }

  lemma {:induction false} GroupRowsAgree(rows: seq<Transaction>, locations: map<string, string>, now: int)
    requires forall t :: t in rows ==> FinishedToday(t, now)
    ensures Agrees(GroupRows(rows, locations), rows, locations, now)
  {
    if rows != [] {
      var front, last := rows[..|rows| - 1], rows[|rows| - 1];
      assert rows == front + [last];
      GroupRowsAgree(front, locations, now);
      var groups := GroupRows(front, locations);
      GrowProper(groups, KeyOf(last, locations), Energy(last));
      forall key ensures ConsumedIn(GroupRows(rows, locations), key) == EnergyOf(rows, locations, now, key)
                      && CountIn(GroupRows(rows, locations), key) == CountOf(rows, locations, now, key) {
        OneMore(front, last, locations, now, key);
        GrowAdds(groups, KeyOf(last, locations), Energy(last), key);
      }
    }
  }

  /** The pipeline lists, once each, the keys that have finished transactions today, with their energy
      and their number over the whole collection. */
  lemma AggregateAgrees(all: seq<Transaction>, locations: map<string, string>, now: int)
    ensures Agrees(GetTodayConsumedEnergy(all, locations, now), all, locations, now)
  {
    MatchingFinished(all, now);
    GroupRowsAgree(Matching(all, now), locations, now);
    forall key ensures EnergyOf(Matching(all, now), locations, now, key) == EnergyOf(all, locations, now, key)
                    && CountOf(Matching(all, now), locations, now, key) == CountOf(all, locations, now, key) {
      MatchingSame(all, locations, now, key);
    }
  }

  // ---------- a partition ----------

  function TotalConsumed(groups: seq<Group>): int {
    if groups == [] then 0 else groups[0].consumed + TotalConsumed(groups[1..])
  }

  function TotalCounted(groups: seq<Group>): int {
    if groups == [] then 0 else groups[0].count + TotalCounted(groups[1..])
  }

  /** The rows of every other key. */
  function Without(all: seq<Transaction>, locations: map<string, string>, key: Key): seq<Transaction> {
    if all == [] then []
    else (if KeyOf(all[0], locations) == key then [] else [all[0]]) + Without(all[1..], locations, key)
  }

  lemma {:induction false} WithoutSplits(all: seq<Transaction>, locations: map<string, string>, now: int, key: Key)
    ensures var rest := Without(all, locations, key);
            && TotalEnergy(all, now) == EnergyOf(all, locations, now, key) + TotalEnergy(rest, now)
            && TotalCount(all, now) == CountOf(all, locations, now, key) + TotalCount(rest, now)
  {
    if all != [] {
      WithoutSplits(all[1..], locations, now, key);
      if KeyOf(all[0], locations) == key {
        assert Without(all, locations, key) == Without(all[1..], locations, key);
      } else {
        assert Without(all, locations, key)[1..] == Without(all[1..], locations, key);
      }
    }
  }

  lemma {:induction false} WithoutKeeps(all: seq<Transaction>, locations: map<string, string>, now: int, key: Key, other: Key)
    ensures var rest := Without(all, locations, key);
            && EnergyOf(rest, locations, now, other) == (if other == key then 0 else EnergyOf(all, locations, now, other))
            && CountOf(rest, locations, now, other) == (if other == key then 0 else CountOf(all, locations, now, other))
  {
    if all != [] {
      WithoutKeeps(all[1..], locations, now, key, other);
      if KeyOf(all[0], locations) == key {
        assert Without(all, locations, key) == Without(all[1..], locations, key);
      } else {
        assert Without(all, locations, key)[1..] == Without(all[1..], locations, key);
      }
    }
  }

  lemma {:induction false} NothingCounted(all: seq<Transaction>, locations: map<string, string>, now: int)
    requires forall key :: CountOf(all, locations, now, key) == 0
    ensures TotalEnergy(all, now) == 0 && TotalCount(all, now) == 0
  {
    if all != [] {
      assert CountOf(all, locations, now, KeyOf(all[0], locations)) == 0;
      forall key ensures CountOf(all[1..], locations, now, key) == 0 {
        assert CountOf(all, locations, now, key) == 0;
      }
      NothingCounted(all[1..], locations, now);
    }
  }

  lemma {:induction false} Unlisted(groups: seq<Group>, key: Key)
    requires !Lists(groups, key)
    ensures ConsumedIn(groups, key) == 0 && CountIn(groups, key) == 0
  {
    if groups != [] {
      Unlisted(groups[1..], key);
    }
  }

  /** The groups partition today's finished transactions, whatever order they come in: their energies
      add up to the energy of all of them, and their counts to their number. */
  lemma {:induction false} GroupsPartition(groups: seq<Group>, all: seq<Transaction>, locations: map<string, string>, now: int)
    requires Agrees(groups, all, locations, now)
    ensures TotalConsumed(groups) == TotalEnergy(all, now) && TotalCounted(groups) == TotalCount(all, now)
    decreases |groups|
  {
    if groups == [] {
      forall key ensures CountOf(all, locations, now, key) == 0 {
        assert CountIn(groups, key) == CountOf(all, locations, now, key);
      }
      NothingCounted(all, locations, now);
    } else {
      var key := groups[0].key;
      var rest := Without(all, locations, key);
      Unlisted(groups[1..], key);
      WithoutSplits(all, locations, now, key);
      assert ConsumedIn(groups, key) == EnergyOf(all, locations, now, key) && CountIn(groups, key) == CountOf(all, locations, now, key);
      forall other ensures ConsumedIn(groups[1..], other) == EnergyOf(rest, locations, now, other)
                        && CountIn(groups[1..], other) == CountOf(rest, locations, now, other) {
        WithoutKeeps(all, locations, now, key, other);
        assert ConsumedIn(groups, other) == EnergyOf(all, locations, now, other) && CountIn(groups, other) == CountOf(all, locations, now, other);
      }
      GroupsPartition(groups[1..], rest, locations, now);
    }
  }

  /** What one transaction adds: its energy, never less than nothing, to the group of its charge point and
      that charge point's location, if it is finished and ended on the day, in UTC, of the query. */
  lemma OneTransaction(t: Transaction, locations: map<string, string>, now: int)
    ensures GetTodayConsumedEnergy([t], locations, now)
         == if t.finished && t.timeStop / (86_400 * SECOND) == now / (86_400 * SECOND)
            then [Group(Key(if t.place.chargePoint in locations then locations[t.place.chargePoint] else "", t.place.chargePoint),
                        if t.meterStop > t.meterStart then t.meterStop - t.meterStart else 0, 1)]
            else []
  {
    SameDay(t.timeStop, now);
    assert [t][1..] == [] && [t][..0] == [];
    assert Matching([t], now) == if FinishedToday(t, now) then [t] else [];
    assert GroupRows([t], locations) == Grow([], KeyOf(t, locations), Energy(t));
  }

  lemma SameDay(time: int, now: int)
    ensures StartOfDay(now) <= time < StartOfDay(now) + DAY <==> time / (86_400 * SECOND) == now / (86_400 * SECOND)
  {
    assert DAY == 86_400 * SECOND;
    var q, r := time / DAY, now / DAY;
    assert time == q * DAY + time % DAY && now == r * DAY + now % DAY;
  }

  // ---------- the gauges ----------

  datatype Reading = Reading(consumed: int, count: int)

  const ZERO := Reading(0, 0)

  /** The metrics layer drops a series with an empty label. */
  predicate Labelled(key: Key) {
    key.location != "" && key.chargePoint != ""
  }

  function Observe(gauges: map<Key, Reading>, key: Key, reading: Reading): map<Key, Reading> {
    if Labelled(key) then gauges[key := reading] else gauges
  }

  function ObserveGroups(gauges: map<Key, Reading>, groups: seq<Group>): map<Key, Reading> {
    if groups == [] then gauges
    else
      var last := groups[|groups| - 1];
      Observe(ObserveGroups(gauges, groups[..|groups| - 1]), last.key, Reading(last.consumed, last.count))
  }

  function KeysOf(groups: seq<Group>): set<Key> {
    set g | g in groups :: g.key
  }

  function Zeroed(gauges: map<Key, Reading>, keys: set<Key>): map<Key, Reading> {
    map key | key in gauges.Keys + keys && (key in gauges || Labelled(key))
      :: if key in keys && Labelled(key) then ZERO else gauges[key]
  }

  /** The keys shown by the last refresh, and the gauges' series. */
  datatype Board = Board(series: set<Key>, gauges: map<Key, Reading>)

  const BLANK := Board({}, map[])

  function Refreshed(b: Board, groups: seq<Group>): Board {
    Board(KeysOf(groups), Zeroed(ObserveGroups(b.gauges, groups), b.series - KeysOf(groups)))
  }

  class Observer {
    var consumedSeries: set<Key>
    var gauges: map<Key, Reading>

    ghost function Now(): Board
      reads this
    {
      Board(consumedSeries, gauges)
    }

    constructor ()
      ensures Now() == BLANK
    {
      consumedSeries, gauges := {}, map[];
    }

    /** Refreshes the series from the aggregate, or leaves them when it could not be read. */
    method ObserveConsumedPower(consumed: Option<seq<Group>>)
      modifies this
      ensures Now() == if consumed.Some? then Refreshed(old(Now()), consumed.value) else old(Now())
    {
      if consumed.None? {
        return;
      }
      var groups := consumed.value;
      var current: set<Key> := {};
      var i := 0;
      while i < |groups|
        invariant 0 <= i <= |groups|
        invariant gauges == ObserveGroups(old(gauges), groups[..i])
        invariant current == KeysOf(groups[..i])
        invariant consumedSeries == old(consumedSeries)
      {
        var g := groups[i];
        assert groups[..i + 1][..i] == groups[..i] && groups[..i + 1][i] == g;
        gauges := Observe(gauges, g.key, Reading(g.consumed, g.count));
        current := current + {g.key};
        i := i + 1;
      }
      assert groups[..i] == groups;
      ghost var observed := gauges;
      ghost var zeroed: set<Key> := {};
      var rest := consumedSeries;
      while rest != {}
        invariant rest <= consumedSeries == old(consumedSeries)
        invariant forall key :: key in zeroed <==> key in consumedSeries && key !in rest && key !in current
        invariant SameReadings(gauges, Zeroed(observed, zeroed))
        decreases |rest|
      {
        var key := Pick(rest);
        rest := rest - {key};
        if key !in current {
          ObserveZero(gauges, observed, zeroed, key);
          zeroed := zeroed + {key};
          gauges := Observe(gauges, key, ZERO);
        }
      }
      assert zeroed == consumedSeries - current;
      SameMap(gauges, Zeroed(observed, zeroed));
      consumedSeries := current;
    }
  }

  ghost predicate SameReadings(a: map<Key, Reading>, b: map<Key, Reading>) {
    && (forall key :: key in a <==> key in b)
    && (forall key :: key in a && key in b ==> a[key] == b[key])
  }

  lemma ObserveZero(gauges: map<Key, Reading>, observed: map<Key, Reading>, done: set<Key>, key: Key)
    requires SameReadings(gauges, Zeroed(observed, done))
    ensures SameReadings(Observe(gauges, key, ZERO), Zeroed(observed, done + {key}))
  {
  }

  // ---------- every run of refreshes ----------

  /** A refresh that read an aggregate, perhaps of an earlier moment than the last one; a refresh that
      could not read; a restart of the process. */
  datatype Event = Refresh(groups: seq<Group>) | Unread | Restart

  function Step(b: Board, e: Event): Board {
    match e
    case Refresh(groups) => Refreshed(b, groups)
    case Unread => b
    case Restart => BLANK
  }

  function Run(b: Board, events: seq<Event>): Board
    decreases |events|
  {
    if events == [] then b else Run(Step(b, events[0]), events[1..])
  }

  /** Every series that is not zero was shown by the last refresh. */
  ghost predicate Tracked(b: Board) {
    && (forall key :: key in b.gauges ==> Labelled(key) && (key in b.series || b.gauges[key] == ZERO))
    && (forall key :: key in b.series && Labelled(key) ==> key in b.gauges)
  }

  lemma {:induction false} ObserveGroupsKeeps(gauges: map<Key, Reading>, groups: seq<Group>)
    requires forall key :: key in gauges ==> Labelled(key)
    ensures var shown := ObserveGroups(gauges, groups);
            forall key :: (key in shown <==> key in gauges || (key in KeysOf(groups) && Labelled(key)))
              && (key in shown && key !in KeysOf(groups) ==> shown[key] == gauges[key])
  {
    if groups != [] {
      var front := groups[..|groups| - 1];
      ObserveGroupsKeeps(gauges, front);
      assert groups == front + [groups[|groups| - 1]];
      assert KeysOf(groups) == KeysOf(front) + {groups[|groups| - 1].key};
    }
  }

  lemma RefreshTracked(b: Board, groups: seq<Group>)
    requires Tracked(b)
    ensures Tracked(Refreshed(b, groups))
  {
    ObserveGroupsKeeps(b.gauges, groups);
  }

  lemma {:induction false} RunTracked(b: Board, events: seq<Event>)
    requires Tracked(b)
    ensures Tracked(Run(b, events))
    decreases |events|
  {
    if events != [] {
      if events[0].Refresh? {
        RefreshTracked(b, events[0].groups);
      }
      RunTracked(Step(b, events[0]), events[1..]);
    }
  }

  lemma {:induction false} ListsKey(groups: seq<Group>, key: Key)
    ensures Lists(groups, key) <==> key in KeysOf(groups)
  {
    if groups != [] {
      ListsKey(groups[1..], key);
      assert groups == [groups[0]] + groups[1..];
    }
  }

  lemma {:induction false} ProperSnoc(front: seq<Group>, last: Group)
    requires Proper(front + [last])
    ensures Proper(front) && !Lists(front, last.key) && last.count > 0
    ensures forall key :: ConsumedIn(front + [last], key) == ConsumedIn(front, key) + if key == last.key then last.consumed else 0
    ensures forall key :: CountIn(front + [last], key) == CountIn(front, key) + if key == last.key then last.count else 0
    ensures forall key :: Lists(front, key) ==> Lists(front + [last], key)
  {
    if front != [] {
      assert (front + [last])[1..] == front[1..] + [last];
      ProperSnoc(front[1..], last);
      ListsKey(front + [last], last.key);
      ListsKey(front[1..] + [last], last.key);
      assert last in front[1..] + [last];
    }
  }

  /** A listed series shows what its group says. */
  lemma {:induction false} ObserveGroupsShows(gauges: map<Key, Reading>, groups: seq<Group>, key: Key)
    requires Proper(groups) && Lists(groups, key) && Labelled(key)
    ensures var shown := ObserveGroups(gauges, groups);
            key in shown && shown[key] == Reading(ConsumedIn(groups, key), CountIn(groups, key))
  {
    var front, last := groups[..|groups| - 1], groups[|groups| - 1];
    assert groups == front + [last];
    ProperSnoc(front, last);
    if key == last.key {
      Unlisted(front, key);
    } else {
      ListsKey(groups, key);
      ListsKey(front, key);
      ObserveGroupsShows(gauges, front, key);
    }
  }

  lemma {:induction false} ListedExactly(groups: seq<Group>, key: Key)
    requires Proper(groups)
    ensures Lists(groups, key) <==> CountIn(groups, key) > 0
    ensures CountIn(groups, key) >= 0
  {
    if groups != [] {
      ListedExactly(groups[1..], key);
    }
  }

  /** After a refresh at any point of any run, a labelled series exists if today's finished transactions
      have it, and every series shows exactly their energy and number: zero when there are none. */
  lemma RefreshShowsToday(events: seq<Event>, groups: seq<Group>, all: seq<Transaction>, locations: map<string, string>,
                          now: int, key: Key)
    requires Agrees(groups, all, locations, now)
    ensures var gauges := Refreshed(Run(BLANK, events), groups).gauges;
            && (key in gauges ==> gauges[key] == Reading(EnergyOf(all, locations, now, key), CountOf(all, locations, now, key)))
            && (key in gauges ==> key.location != "" && key.chargePoint != "")
            && (key.location != "" && key.chargePoint != "" && CountOf(all, locations, now, key) > 0 ==> key in gauges)
  {
    var b := Run(BLANK, events);
    RunTracked(BLANK, events);
    ObserveGroupsKeeps(b.gauges, groups);
    ListsKey(groups, key);
    ListedExactly(groups, key);
    assert ConsumedIn(groups, key) == EnergyOf(all, locations, now, key) && CountIn(groups, key) == CountOf(all, locations, now, key);
    if Lists(groups, key) {
      if Labelled(key) {
        ObserveGroupsShows(b.gauges, groups, key);
      }
    } else {
      Unlisted(groups, key);
    }
  }
}
