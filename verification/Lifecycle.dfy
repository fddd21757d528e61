/** The charging-session lifecycle as a state machine. Handlers run under the handler lock, so each
    is one step; closing an abandoned transaction is not, so it is five steps per sweep, and any
    number of sweeps may be in flight. Meter values are not either: a Meter step is the whole
    handler when nothing gets between its reads and its writes, or, without readings, only its
    reads; each Save that follows files one reading with the copy of the row read then. The process
    may crash after any database write of any step, and then starts again from what is stored. */
module Lifecycle {
  import opened Domain
  import opened Persistence
  import opened Sessions

  /** How far a sweep has come with one transaction. The document is the sweep's own copy: the row
      as it was selected, and from Figured on with the figures it is about to write. */
  datatype Sweep = Selected(t: Transaction) | Figured(t: Transaction) | Closed(t: Transaction) | Freed(t: Transaction)

  datatype World =
    | Up(store: Store, memory: Memory, sweeps: map<nat, Sweep>)
    | Down(store: Store, acceptPoints: bool)

  datatype Event =
    | Start(start: StartRequest)
    | Stop(stop: StopRequest)
    | Meter(meter: MeterRequest)
    | Save(copy: Transaction, reading: Reading)
    | Status(place: Place)
    | Select(tag: nat, id: int)
    | Figure(tag: nat)
    | Close(tag: nat)
    | Release(tag: nat)
    | Purge(tag: nat)
    | Restart

  /** One step: the event, the order in which the database lists its connectors, the operations
      that fail, and, when the process dies in this step, how many of its writes had landed. */
  datatype Step = Step(event: Event, order: seq<Place>, faults: Faults, crash: Option<nat>)

  datatype Effect = Effect(history: History, memory: Memory, sweeps: map<nat, Sweep>, reply: Reply)

  ghost function Perform(w: World, x: Step): Effect
    requires w.Up?
  {
    var Up(s, m, sweeps) := w;
    var f := x.faults;
    match x.event
    case Start(r) =>
      var o := StartTransaction([s], m, x.order, r, f);
      Effect(o.history, o.memory, sweeps, o.reply)
    case Stop(r) =>
      var o := StopTransaction([s], m, x.order, r, f);
      Effect(o.history, o.memory, sweeps, o.reply)
    case Meter(r) =>
      var o := MeterValues([s], m, x.order, r, f);
      Effect(o.history, o.memory, sweeps, o.reply)
    case Status(p) =>
      var o := StatusNotification([s], m, x.order, p, f);
      Effect(o.history, o.memory, sweeps, o.reply)
    case Save(t, reading) =>
      Effect(RecordReadings([s], t, [reading], f), m, sweeps, Confirmed)
    case Select(tag, id) =>
      // a sweep takes up a transaction the database shows as open
      if tag !in sweeps && id in s.transactions && !s.transactions[id].finished
      then Effect([s], m, sweeps[tag := Selected(s.transactions[id])], Confirmed)
      else Effect([s], m, sweeps, Confirmed)
    case Figure(tag) =>
      if tag in sweeps && sweeps[tag].Selected? then
        var t := sweeps[tag].t;
        var newest := if f.read then None else Newest(s.SamplesOf(t.id));
        Effect([s], m, sweeps[tag := Figured(SweepFigures(t, newest))], Confirmed)
      else Effect([s], m, sweeps, Confirmed)
    case Close(tag) =>
      if tag in sweeps && sweeps[tag].Figured? then
        var t := sweeps[tag].t;
        Effect(Record([s], f.updateTransaction, s.UpdateTransaction(t)), m, sweeps[tag := Closed(t)], Confirmed)
      else Effect([s], m, sweeps, Confirmed)
    case Release(tag) =>
      if tag in sweeps && sweeps[tag].Closed? then
        var t := sweeps[tag].t;
        var l := ReleaseSwept([s], m, x.order, t, f);
        Effect(l.history, l.memory, sweeps[tag := Freed(t)], Confirmed)
      else Effect([s], m, sweeps, Confirmed)
    case Purge(tag) =>
      if tag in sweeps && sweeps[tag].Freed? then
        Effect(Record([s], f.samples, s.DeleteSamples(sweeps[tag].t.id)), m, sweeps - {tag}, Confirmed)
      else Effect([s], m, sweeps, Confirmed)
    case Restart =>
      Effect([s], m, sweeps, Confirmed)
  }

  /** The world after a step: what the step computed, or, on a crash, only what had been written. */
  ghost function Settle(h: History, crash: Option<nat>, next: World, acceptPoints: bool): World {
    match crash
    case None => next
    case Some(k) => Down(h[if k < |h| then k else |h| - 1], acceptPoints)
  }

  ghost function Advance(w: World, x: Step): World {
    match w
    case Up(s, m, _) =>
      var e := Perform(w, x);
      Settle(e.history, x.crash, Up(Now(e.history), e.memory, e.sweeps), m.acceptPoints)
    case Down(s, accept) =>
      if x.event.Restart? && ListsConnectors(x.order, s) then
        var l := OnStart(s, x.order, accept, x.faults);
        Settle(l.history, x.crash, Up(Now(l.history), l.memory, map[]), accept)
      else w
  }

  ghost function Run(w: World, steps: seq<Step>): World
    decreases |steps|
  {
    if steps == [] then w else Run(Advance(w, steps[0]), steps[1..])
  }

  /** Steps of a run that all meet a condition on the world they are taken in. */
  ghost predicate Along(w: World, steps: seq<Step>, ok: (World, Step) -> bool)
    decreases |steps|
  {
    steps != [] ==> ok(w, steps[0]) && Along(Advance(w, steps[0]), steps[1..], ok)
  }
}
