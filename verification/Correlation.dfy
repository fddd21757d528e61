/** Matching a charge point's answers to the requests that wait for them (server/server.go). */
module Correlation {
  import opened Domain

  const MAX_FIRE_AND_FORGET := 1024
  const CHANNEL_CAPACITY := 1

  /** The two tables under the pending mutex, and the buffer of every channel made so far; a channel
      is its position. */
  datatype Tables = Tables(pending: map<string, nat>, discard: set<string>, channels: seq<seq<string>>)

  datatype Match = Waiter(channel: nat) | Discarded | Unmatched

  function Registered(t: Tables, id: string): Tables {
    t.(pending := t.pending[id := |t.channels|], channels := t.channels + [[]])
  }

  function Released(t: Tables, id: string): Tables {
    t.(pending := t.pending - {id})
  }

  /** A full discard set gives up one entry of its own choosing. */
  function Marked(t: Tables, id: string, victim: string): Tables {
    t.(discard := (if |t.discard| >= MAX_FIRE_AND_FORGET then t.discard - {victim} else t.discard) + {id})
  }

  function Matching(t: Tables, id: string): Match {
    if id in t.pending then Waiter(t.pending[id]) else if id in t.discard then Discarded else Unmatched
  }

  function Matched(t: Tables, id: string): Tables {
    if Matching(t, id).Discarded? then t.(discard := t.discard - {id}) else t
  }

  /** A send goes through only while the buffer has room. */
  predicate HasRoom(t: Tables, channel: nat) {
    channel < |t.channels| && |t.channels[channel]| < CHANNEL_CAPACITY
  }

  function Sent(t: Tables, channel: nat, payload: string): Tables
    requires channel < |t.channels|
  {
    t.(channels := t.channels[channel := t.channels[channel] + [payload]])
  }

  class Server {
    var pending: map<string, nat>
    var fireAndForget: set<string>
    var channels: seq<seq<string>>

    ghost function Now(): Tables
      reads this
    {
      Tables(pending, fireAndForget, channels)
    }

    constructor ()
      ensures Now() == Tables(map[], {}, [])
    {
      pending, fireAndForget, channels := map[], {}, [];
    }

    method RegisterPending(id: string) returns (channel: nat)
      modifies this
      ensures Now() == Registered(old(Now()), id) && channel == old(|channels|)
    {
      channel := |channels|;
      channels := channels + [[]];
      pending := pending[id := channel];
    }

    method ReleasePending(id: string)
      modifies this
      ensures Now() == Released(old(Now()), id)
    {
      pending := pending - {id};
    }

    method MarkFireAndForget(id: string) returns (ghost victim: string)
      modifies this
      ensures old(|fireAndForget|) >= MAX_FIRE_AND_FORGET ==> victim in old(fireAndForget)
      ensures Now() == Marked(old(Now()), id, victim)
      ensures fireAndForget == (if old(|fireAndForget|) >= 1024 then old(fireAndForget) - {victim} else old(fireAndForget)) + {id}
      ensures pending == old(pending) && channels == old(channels)
    {
      victim := id;
      if |fireAndForget| >= MAX_FIRE_AND_FORGET {
        var stale := Pick(fireAndForget);
        victim := stale;
        fireAndForget := fireAndForget - {stale};
      }
      fireAndForget := fireAndForget + {id};
    }

    /** The part of ResolveResponse under the mutex. */
    method Match(id: string) returns (found: Match)
      modifies this
      ensures found == Matching(old(Now()), id)
      ensures Now() == Matched(old(Now()), id)
    {
      if id in pending {
        return Waiter(pending[id]);
      }
      if id in fireAndForget {
        fireAndForget := fireAndForget - {id};
        return Discarded;
      }
      found := Unmatched;
    }

    /** Reports whether anyone was waiting, or that the read pump is left blocked on a full buffer. */
    method ResolveResponse(id: string, payload: string) returns (resolved: bool, blocked: bool)
      modifies this
      ensures resolved <==> id in old(pending) || id in old(fireAndForget)
      ensures pending == old(pending)
      ensures fireAndForget == if id in old(pending) then old(fireAndForget) else old(fireAndForget) - {id}
      ensures blocked ==> id in old(pending) && channels == old(channels)
      ensures var t := old(Now());
              if Matching(t, id).Waiter?
              then blocked == !HasRoom(t, t.pending[id]) && Now() == if blocked then t else Sent(t, t.pending[id], payload)
              else !blocked && Now() == Matched(t, id)
    {
      blocked := false;
      var found := Match(id);
      match found
      case Unmatched => resolved := false;
      case Discarded => resolved := true;
      case Waiter(channel) =>
        resolved := true;
        if channel < |channels| && |channels[channel]| < CHANNEL_CAPACITY {
          channels := channels[channel := channels[channel] + [payload]];
        } else {
          blocked := true;
        }
    }

    /** The request is marked before it is queued; an unavailable recipient or a request that cannot
        be built leaves no trace. */
    method SendRequest(id: string, available: bool, buildable: bool) returns (queued: bool, ghost victim: string)
      modifies this
      ensures queued == (available && buildable)
      ensures queued && old(|fireAndForget|) >= MAX_FIRE_AND_FORGET ==> victim in old(fireAndForget)
      ensures Now() == if queued then Marked(old(Now()), id, victim) else old(Now())
    {
      victim := id;
      queued := available && buildable;
      if queued {
        victim := MarkFireAndForget(id);
      }
    }

    method SendRequestWithResponse(id: string, available: bool, buildable: bool) returns (channel: Option<nat>)
      modifies this
      ensures channel == if available && buildable then Some(old(|channels|)) else None
      ensures Now() == if channel.Some? then Registered(old(Now()), id) else old(Now())
    {
      if !available || !buildable {
        return None;
      }
      var c := RegisterPending(id);
      channel := Some(c);
    }
  }

  // ---------- interleavings ----------

  /** A caller waits for one answer, then stops listening. */
  datatype Caller = Caller(channel: nat, received: Option<string>, released: bool)

  /** A read pump between its lookup and the end of its send. */
  datatype Flight = Flight(id: string, channel: nat, payload: string)

  /** The tables; the callers by the id each registered; the ids sent without waiting; the ids
      evicted; the pumps inside a send; the answers charge points gave; the issued ids answered at
      least once; and, per id, how many answers were matched to its caller. */
  datatype State = State(
    tables: Tables,
    callers: map<string, Caller>,
    fired: set<string>,
    evicted: set<string>,
    pumps: map<nat, Flight>,
    answers: set<(string, string)>,
    answered: set<string>,
    matches: map<string, nat>)

  const START := State(Tables(map[], {}, []), map[], {}, {}, map[], {}, {}, map[])

  datatype Event =
    | Registers(id: string)
    | Fires(id: string, victim: string)
    | Looks(pump: nat, id: string, payload: string)
    | Delivers(pump: nat)
    | Receives(id: string)
    | Releases(id: string)

  predicate Issued(s: State, id: string) {
    id in s.callers || id in s.fired
  }

  /** What is waiting in the channel a caller listens on. */
  function Buffer(s: State, id: string): seq<string> {
    if id in s.callers && s.callers[id].channel < |s.tables.channels| then s.tables.channels[s.callers[id].channel] else []
  }

  predicate Blocked(s: State, pump: nat) {
    pump in s.pumps && !HasRoom(s.tables, s.pumps[pump].channel)
  }

  predicate CanReceive(s: State, id: string) {
    && id in s.callers && !s.callers[id].released && s.callers[id].received.None?
    && Buffer(s, id) != []
  }

  function Matches(s: State, id: string): nat {
    if id in s.matches then s.matches[id] else 0
  }

  function Register(s: State, id: string): State {
    s.(tables := Registered(s.tables, id),
       callers := s.callers[id := Caller(|s.tables.channels|, None, false)],
       matches := s.matches[id := 0])
  }

  function Fire(s: State, id: string, victim: string): State {
    s.(tables := Marked(s.tables, id, victim), fired := s.fired + {id},
       evicted := if |s.tables.discard| >= MAX_FIRE_AND_FORGET then s.evicted + {victim} else s.evicted)
  }

  function Look(s: State, pump: nat, id: string, payload: string): State {
    var seen := s.(tables := Matched(s.tables, id), answers := s.answers + {(id, payload)},
                   answered := if Issued(s, id) then s.answered + {id} else s.answered);
    match Matching(s.tables, id)
    case Waiter(channel) =>
      seen.(pumps := s.pumps[pump := Flight(id, channel, payload)], matches := s.matches[id := Matches(s, id) + 1])
    case Discarded => seen
    case Unmatched => seen
  }

  function Deliver(s: State, pump: nat): State
    requires pump in s.pumps && !Blocked(s, pump)
  {
    s.(tables := Sent(s.tables, s.pumps[pump].channel, s.pumps[pump].payload), pumps := s.pumps - {pump})
  }

  function Receive(s: State, id: string): State
    requires CanReceive(s, id)
  {
    var c := s.callers[id].channel;
    var buffer := s.tables.channels[c];
    s.(tables := s.tables.(channels := s.tables.channels[c := buffer[1..]]),
       callers := s.callers[id := s.callers[id].(received := Some(buffer[0]))])
  }

  function Release(s: State, id: string): State
    requires id in s.callers
  {
    s.(tables := Released(s.tables, id), callers := s.callers[id := s.callers[id].(released := true)])
  }

  /** Request ids are unique, so only an id not issued before is registered or marked; a full discard
      set evicts one of its own; a pump handles one answer at a time. An event that is not enabled
      changes nothing. */
  predicate Enabled(s: State, e: Event) {
    match e
    case Registers(id) => !Issued(s, id)
    case Fires(id, victim) => !Issued(s, id) && (|s.tables.discard| >= MAX_FIRE_AND_FORGET ==> victim in s.tables.discard)
    case Looks(pump, _, _) => pump !in s.pumps
    case Delivers(pump) => pump in s.pumps && !Blocked(s, pump)
    case Receives(id) => CanReceive(s, id)
    case Releases(id) => id in s.callers
  }

  function Step(s: State, e: Event): State {
    if !Enabled(s, e) then s
    else match e
      case Registers(id) => Register(s, id)
      case Fires(id, victim) => Fire(s, id, victim)
      case Looks(pump, id, payload) => Look(s, pump, id, payload)
      case Delivers(pump) => Deliver(s, pump)
      case Receives(id) => Receive(s, id)
      case Releases(id) => Release(s, id)
  }

  function Run(s: State, events: seq<Event>): State
    decreases |events|
  {
    if events == [] then s else Run(Step(s, events[0]), events[1..])
  }

  // ---------- what every interleaving keeps ----------

  /** Ids are in at most one table, and the discard set is bounded. */
  ghost predicate Tabled(s: State) {
    && s.tables.pending.Keys !! s.tables.discard
    && |s.tables.discard| <= MAX_FIRE_AND_FORGET
    && s.callers.Keys !! s.fired
    && s.tables.discard <= s.fired && s.evicted <= s.fired && s.evicted !! s.tables.discard
    && (forall id :: id in s.fired && id !in s.tables.discard ==> id in s.evicted || id in s.answered)
  }

  /** A caller has a channel, and is listed as pending until it is released. */
  ghost predicate Listening(s: State, id: string) {
    && (id in s.callers ==> s.callers[id].channel < |s.tables.channels|)
    && (id in s.tables.pending <==> id in s.callers && !s.callers[id].released)
    && (id in s.tables.pending ==> s.tables.pending[id] == s.callers[id].channel)
  }

  ghost predicate Distinct(s: State) {
    forall a, b :: a in s.callers && b in s.callers && a != b ==> s.callers[a].channel != s.callers[b].channel
  }

  /** A pump sends to the channel of the caller whose id the answer carries. */
  ghost predicate Addressed(s: State, pump: nat) {
    pump in s.pumps ==>
      && s.pumps[pump].id in s.callers && s.pumps[pump].channel == s.callers[s.pumps[pump].id].channel
      && (s.pumps[pump].id, s.pumps[pump].payload) in s.answers
  }

  /** Whatever is buffered for a caller or was received by it answers its own id. */
  ghost predicate Truthful(s: State, id: string) {
    && |Buffer(s, id)| <= CHANNEL_CAPACITY
    && (forall payload :: payload in Buffer(s, id) ==> (id, payload) in s.answers)
    && (id in s.callers && s.callers[id].received.Some? ==> (id, s.callers[id].received.value) in s.answers)
  }

  ghost function InFlight(s: State, id: string): set<nat> {
    set p | p in s.pumps && s.pumps[p].id == id
  }

  /** Answers matched to a caller are neither lost nor doubled: each is in flight, buffered or received. */
  ghost predicate Conserved(s: State, id: string) {
    id in s.callers ==>
      Matches(s, id) == |InFlight(s, id)| + |Buffer(s, id)| + if s.callers[id].received.Some? then 1 else 0
  }

  ghost predicate Good(s: State) {
    && Tabled(s) && Distinct(s)
    && (forall id :: Listening(s, id) && Truthful(s, id) && Conserved(s, id))
    && (forall pump :: Addressed(s, pump))
  }

  lemma RegisterGood(s: State, id: string)
    requires Good(s) && !Issued(s, id)
    ensures Good(Register(s, id))
  {
    var r := Register(s, id);
    assert Listening(s, id);
    forall p ensures p !in InFlight(s, id) {
      assert Addressed(s, p);
    }
    assert InFlight(s, id) == {};
    forall other ensures Listening(r, other) && Truthful(r, other) && Conserved(r, other) {
      assert Listening(s, other) && Truthful(s, other) && Conserved(s, other);
      assert InFlight(r, other) == InFlight(s, other);
    }
    forall pump ensures Addressed(r, pump) {
      assert Addressed(s, pump);
    }
    assert Distinct(r) by {
      assert forall a :: a in s.callers ==> Listening(s, a);
    }
  }

  lemma FireGood(s: State, id: string, victim: string)
    requires Good(s) && Enabled(s, Fires(id, victim))
    ensures Good(Fire(s, id, victim))
  {
    var r := Fire(s, id, victim);
    assert Listening(s, id);
    forall other ensures Listening(r, other) && Truthful(r, other) && Conserved(r, other) {
      assert Listening(s, other) && Truthful(s, other) && Conserved(s, other);
      assert InFlight(r, other) == InFlight(s, other);
    }
    forall pump ensures Addressed(r, pump) {
      assert Addressed(s, pump);
    }
  }

  lemma LookGood(s: State, pump: nat, id: string, payload: string)
    requires Good(s) && pump !in s.pumps
    ensures Good(Look(s, pump, id, payload))
  {
    var r := Look(s, pump, id, payload);
    assert Listening(s, id);
    forall other ensures Listening(r, other) && Truthful(r, other) && Conserved(r, other) {
      LookKeeps(s, pump, id, payload, other);
    }
    forall p ensures Addressed(r, p) {
      assert Addressed(s, p);
    }
    assert Tabled(r) && Distinct(r);
  }

  lemma LookKeeps(s: State, pump: nat, id: string, payload: string, other: string)
    requires Listening(s, other) && Truthful(s, other) && Conserved(s, other) && pump !in s.pumps
    requires Listening(s, id)
    ensures var r := Look(s, pump, id, payload); Listening(r, other) && Truthful(r, other) && Conserved(r, other)
  {
    var r := Look(s, pump, id, payload);
    assert r.callers == s.callers && r.tables.channels == s.tables.channels && r.tables.pending == s.tables.pending;
    assert s.answers <= r.answers;
    LookCounts(s, pump, id, payload, other);
  }

  lemma LookCounts(s: State, pump: nat, id: string, payload: string, other: string)
    requires pump !in s.pumps
    ensures var r := Look(s, pump, id, payload);
            && Buffer(r, other) == Buffer(s, other)
            && (id in s.tables.pending ==> Matches(r, id) == Matches(s, id) + 1 && |InFlight(r, id)| == |InFlight(s, id)| + 1)
            && (other != id || id !in s.tables.pending ==>
                  Matches(r, other) == Matches(s, other) && InFlight(r, other) == InFlight(s, other))
  {
    var r := Look(s, pump, id, payload);
    if id in s.tables.pending {
      assert InFlight(r, id) == InFlight(s, id) + {pump};
      assert other != id ==> InFlight(r, other) == InFlight(s, other);
    } else {
      assert r.pumps == s.pumps;
    }
  }

  lemma DeliverGood(s: State, pump: nat)
    requires Good(s) && pump in s.pumps && !Blocked(s, pump)
    ensures Good(Deliver(s, pump))
  {
    var r := Deliver(s, pump);
    assert Addressed(s, pump);
    forall other ensures Listening(r, other) && Truthful(r, other) && Conserved(r, other) {
      assert Listening(s, other) && Truthful(s, other) && Conserved(s, other);
      if other == s.pumps[pump].id {
        assert InFlight(s, other) == InFlight(r, other) + {pump};
        assert Buffer(r, other) == Buffer(s, other) + [s.pumps[pump].payload];
      } else {
        assert InFlight(r, other) == InFlight(s, other);
        assert Buffer(r, other) == Buffer(s, other);
      }
    }
    forall p ensures Addressed(r, p) {
      assert Addressed(s, p);
    }
  }

  lemma ReceiveGood(s: State, id: string)
    requires Good(s) && CanReceive(s, id)
    ensures Good(Receive(s, id))
  {
    var r := Receive(s, id);
    forall other ensures Listening(r, other) && Truthful(r, other) && Conserved(r, other) {
      assert Listening(s, other) && Truthful(s, other) && Conserved(s, other);
      assert InFlight(r, other) == InFlight(s, other);
      if other == id {
        assert Buffer(s, id) == [Buffer(s, id)[0]] + Buffer(r, id);
      } else {
        assert Buffer(r, other) == Buffer(s, other);
      }
    }
    forall p ensures Addressed(r, p) {
      assert Addressed(s, p);
    }
  }

  lemma ReleaseGood(s: State, id: string)
    requires Good(s) && id in s.callers
    ensures Good(Release(s, id))
  {
    var r := Release(s, id);
    forall other ensures Listening(r, other) && Truthful(r, other) && Conserved(r, other) {
      assert Listening(s, other) && Truthful(s, other) && Conserved(s, other);
      assert InFlight(r, other) == InFlight(s, other);
      assert Buffer(r, other) == Buffer(s, other);
    }
    forall p ensures Addressed(r, p) {
      assert Addressed(s, p);
    }
  }

  lemma StepGood(s: State, e: Event)
    requires Good(s)
    ensures Good(Step(s, e))
  {
    if Enabled(s, e) {
      match e
      case Registers(id) => RegisterGood(s, id);
      case Fires(id, victim) => FireGood(s, id, victim);
      case Looks(pump, id, payload) => LookGood(s, pump, id, payload);
      case Delivers(pump) => DeliverGood(s, pump);
      case Receives(id) => ReceiveGood(s, id);
      case Releases(id) => ReleaseGood(s, id);
    }
  }

  lemma {:induction false} RunGood(s: State, events: seq<Event>)
    requires Good(s)
    ensures Good(Run(s, events))
    decreases |events|
  {
    if events != [] {
      StepGood(s, events[0]);
      RunGood(Step(s, events[0]), events[1..]);
    }
  }

  /** In every interleaving of callers with the read pumps: an id is in at most one table; the discard
      set never outgrows its bound; a caller holds only an answer some charge point gave to its own id;
      and a pump is blocked only behind another answer to the same id, so a first answer never blocks. */
  lemma RunCorrelated(events: seq<Event>, id: string, pump: nat)
    ensures var r := Run(START, events);
            && r.tables.pending.Keys !! r.tables.discard
            && |r.tables.discard| <= 1024
            && (id in r.callers && r.callers[id].received.Some? ==> (id, r.callers[id].received.value) in r.answers)
            && (pump in r.pumps && Matches(r, r.pumps[pump].id) <= 1 ==> !Blocked(r, pump))
  {
    RunGood(START, events);
    var r := Run(START, events);
    assert Truthful(r, id);
    if pump in r.pumps {
      BlockedBehindAnother(r, pump);
    }
  }

  lemma BlockedBehindAnother(s: State, pump: nat)
    requires Good(s) && pump in s.pumps
    ensures Blocked(s, pump) ==> Matches(s, s.pumps[pump].id) >= 2
  {
    var id := s.pumps[pump].id;
    assert Addressed(s, pump) && Conserved(s, id) && Listening(s, id);
    assert pump in InFlight(s, id);
  }

  /** The first answer to an issued id is reported as unmatched exactly when its caller has stopped
      listening or the id was evicted from the discard set. */
  lemma FirstAnswerUnmatchedExactly(events: seq<Event>, id: string)
    requires Issued(Run(START, events), id) && id !in Run(START, events).answered
    ensures var r := Run(START, events);
            Matching(r.tables, id).Unmatched? <==> (id in r.callers && r.callers[id].released) || id in r.evicted
  {
    RunGood(START, events);
    assert Listening(Run(START, events), id);
  }

  /** The caller is still able to take an answer out of its channel. */
  predicate StillListening(s: State, id: string) {
    id in s.callers && !s.callers[id].released && s.callers[id].received.None?
  }

  /** Once the caller takes the first answer, the pump can hand over the second. */
  lemma TakingUnblocks(s: State, pump: nat)
    requires Good(s) && Blocked(s, pump) && StillListening(s, s.pumps[pump].id)
    ensures pump !in Run(s, [Receives(s.pumps[pump].id), Delivers(pump)]).pumps
  {
    var id := s.pumps[pump].id;
    assert Addressed(s, pump) && Listening(s, id) && Truthful(s, id);
    var events := [Receives(id), Delivers(pump)];
    assert Enabled(s, events[0]);
    var a := Receive(s, id);
    assert a.tables.channels[s.pumps[pump].channel] == [];
    assert Enabled(a, events[1]);
    assert Run(s, events) == Run(a, events[1..]);
    assert Run(a, events[1..]) == Run(Deliver(a, pump), events[1..][1..]);
    assert events[1..][1..] == [];
  }

  /** A blocked pump gets free exactly when its caller is still listening: a second answer that finds
      the buffer full of the first after the caller gave up waits forever. */
  lemma BlockedForeverExactly(s: State, pump: nat)
    requires Good(s) && Blocked(s, pump)
    ensures StillListening(s, s.pumps[pump].id) <==> exists events :: pump !in Run(s, events).pumps
  {
    var id := s.pumps[pump].id;
    assert Addressed(s, pump) && Listening(s, id) && Truthful(s, id);
    if StillListening(s, id) {
      TakingUnblocks(s, pump);
    } else {
      forall events ensures pump in Run(s, events).pumps {
        StaysBlocked(s, pump, events);
      }
    }
  }

  lemma {:induction false} StaysBlocked(s: State, pump: nat, events: seq<Event>)
    requires Good(s) && Blocked(s, pump) && !StillListening(s, s.pumps[pump].id)
    ensures Blocked(Run(s, events), pump) && Run(s, events).pumps[pump] == s.pumps[pump]
    decreases |events|
  {
    if events != [] {
      StepStaysBlocked(s, pump, events[0]);
      StepGood(s, events[0]);
      StaysBlocked(Step(s, events[0]), pump, events[1..]);
    }
  }

  lemma StepStaysBlocked(s: State, pump: nat, e: Event)
    requires Good(s) && Blocked(s, pump) && !StillListening(s, s.pumps[pump].id)
    ensures var r := Step(s, e);
            && Blocked(r, pump) && r.pumps[pump] == s.pumps[pump] && !StillListening(r, s.pumps[pump].id)
  {
    assert Addressed(s, pump);
    assert Listening(s, s.pumps[pump].id);
  }

  /** Such a run exists: two answers to one request whose caller timed out. */
  lemma LateDuplicateBlocks(id: string, pump: nat, first: string, second: string)
    ensures Blocked(Run(START, [Registers(id), Looks(pump, id, first), Delivers(pump), Looks(pump, id, second), Releases(id)]), pump)
  {
    var events := [Registers(id), Looks(pump, id, first), Delivers(pump), Looks(pump, id, second), Releases(id)];
    var s1 := Step(START, events[0]);
    var s2 := Step(s1, events[1]);
    var s3 := Step(s2, events[2]);
    var s4 := Step(s3, events[3]);
    var s5 := Step(s4, events[4]);
    assert Run(s4, events[4..]) == s5;
    assert events[3..][1..] == events[4..];
    assert Run(s3, events[3..]) == s5;
    assert events[2..][1..] == events[3..];
    assert Run(s2, events[2..]) == s5;
    assert events[1..][1..] == events[2..];
    assert Run(s1, events[1..]) == s5;
  }
}
