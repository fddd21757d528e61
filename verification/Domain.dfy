/** The entities of the charging-session model, as values. */
module Domain {

  datatype Option<+T> = None | Some(value: T)

  /** Instants and spans are counted in nanoseconds, as Go's time package does. */
  const SECOND := 1_000_000_000
  const MINUTE := 60 * SECOND

  /** Integer division that truncates toward zero, which is what Go's `/` does. */
  function TruncDiv(a: int, b: int): (q: int)
    requires b > 0
    ensures a >= 0 ==> q * b <= a < (q + 1) * b
    ensures a < 0 ==> (q - 1) * b < a <= q * b
  {
    if a >= 0 then a / b else -((-a) / b)
  }

  lemma TruncDivMonotone(a: int, b: int, d: int)
    requires a <= b && d > 0
    ensures TruncDiv(a, d) <= TruncDiv(b, d)
  {
  }

  /** The minute a meter value is filed under: whole seconds since the epoch, over sixty. */
  function MinuteOf(time: int): int {
    TruncDiv(time / SECOND, 60)
  }

  /** Prices in cents: per kilowatt-hour and per hour. */
  datatype Plan = Plan(pricePerKwh: int, pricePerHour: int)

  /** A connector's identity: its charge point and its number there. */
  datatype Place = Place(chargePoint: string, number: int)

  datatype Connector = Connector(currentTransactionId: int, currentPowerLimit: int)

  /** A connector that holds no transaction and no power limit. */
  const FREE := Connector(-1, 0)

  /** One stored energy reading of a session, with the price the session had reached. */
  datatype Sample = Sample(time: int, value: int, price: int)

  datatype Transaction = Transaction(
    id: int,
    place: Place,
    finished: bool,
    meterStart: int,
    meterStop: int,
    timeStart: int,
    timeStop: int,
    reason: string,
    payment: int,
    plan: Option<Plan>)

  const STOPPED_BY_SYSTEM := "stopped by system"
  const ABORTED_BY_SYSTEM := "aborted by system"
  const STOPPED_BACKLOG := "stopped by system (backlog)"
  const ABORTED_BACKLOG := "aborted by system (backlog)"

  function Max(a: int, b: int): int {
    if a >= b then a else b
  }

  /** Some element of a set: iteration over a collection whose order is not specified. */
  method Pick<T(==)>(s: set<T>) returns (x: T)
    requires s != {}
    ensures x in s
  {
    x :| x in s;
  }

  ghost function Choose<T>(s: set<T>): (x: T)
    requires s != {}
    ensures x in s
  {
    var x :| x in s; x
  }

  lemma SameMap<K, V>(a: map<K, V>, b: map<K, V>)
    requires forall k :: k in a <==> k in b
    requires forall k :: k in a ==> a[k] == b[k]
    ensures a == b
  {
  }
}
