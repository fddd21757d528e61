/** The power-slot allocator of one location (power/load_balancer.go). */
module LoadBalancer {
  import opened Domain

  const BASE_LIMIT := 85
  const POWER_SLOTS := [330, 195, 145, 115]

  /** A connector of the location as the balancer sees it. */
  datatype Outlet = Outlet(smart: bool, transaction: int, limit: int)

  predicate Active(o: Outlet) {
    o.smart && o.transaction >= 0
  }

  predicate Limitless(o: Outlet) {
    Active(o) && o.limit <= 0
  }

  // ---------- one pass ----------

  function UsedLimits(os: seq<Outlet>): set<int> {
    set o | o in os && Active(o) :: o.limit
  }

  function FirstFree(used: set<int>, slots: seq<int>): int {
    if slots == [] then BASE_LIMIT
    else if slots[0] !in used then slots[0]
    else FirstFree(used, slots[1..])
  }

  /** Without a session, a leftover limit is cleared. */
  function Cleared(o: Outlet): Outlet {
    if o.smart && o.transaction < 0 && o.limit > 0 then o.(limit := 0) else o
  }

  /** A limitless session gets the offered limit if its profile could be queued; an idle connector
      ends without a limit; a session that has one keeps it. */
  function Assigned(o: Outlet, offer: int, queued: bool): Outlet {
    if !o.smart || (o.transaction >= 0 && o.limit > 0) then o
    else if o.transaction < 0 then o.(limit := 0)
    else if queued then o.(limit := offer)
    else o
  }

  function Offer(os: seq<Outlet>): int {
    FirstFree(UsedLimits(os), POWER_SLOTS)
  }

  /** A pass over the location; refused are the connectors whose profile could not be queued. */
  function Pass(os: seq<Outlet>, refused: set<nat>): seq<Outlet> {
    if exists i :: 0 <= i < |os| && Active(os[i])
    then seq(|os|, i requires 0 <= i < |os| => Assigned(Cleared(os[i]), Offer(os), i !in refused))
    else seq(|os|, i requires 0 <= i < |os| => Cleared(os[i]))
  }

  /** The connectors a pass sends a profile to. */
  function Sends(os: seq<Outlet>): set<int> {
    set i | 0 <= i < |os| && Limitless(os[i])
  }

  /** The first slot in order that is not in use, or the base limit when all are. */
  lemma {:induction false} FirstFreeExactly(used: set<int>, slots: seq<int>)
    ensures var r := FirstFree(used, slots);
            || (exists k :: 0 <= k < |slots| && slots[k] == r && r !in used && forall j :: 0 <= j < k ==> slots[j] in used)
            || (r == BASE_LIMIT && forall j :: 0 <= j < |slots| ==> slots[j] in used)
  {
    if slots != [] && slots[0] in used {
      var r, rest := FirstFree(used, slots), slots[1..];
      FirstFreeExactly(used, rest);
      if k :| 0 <= k < |rest| && rest[k] == r && r !in used && forall j :: 0 <= j < k ==> rest[j] in used {
        assert slots[k + 1] == r;
        assert forall j :: 0 < j < k + 1 ==> slots[j] == rest[j - 1];
      } else {
        assert forall j :: 0 < j < |slots| ==> slots[j] == rest[j - 1];
      }
    } else if slots != [] {
      assert slots[0] == FirstFree(used, slots);
    }
  }

  predicate Slot(limit: int) {
    limit == 330 || limit == 195 || limit == 145 || limit == 115
  }

  /** The offer is the highest slot no session uses, or the base limit when all are used. */
  lemma OfferExactly(os: seq<Outlet>)
    ensures var r := Offer(os);
            || (Slot(r) && r !in UsedLimits(os) && forall x :: Slot(x) && x > r ==> x in UsedLimits(os))
            || (r == BASE_LIMIT && forall x :: Slot(x) ==> x in UsedLimits(os))
  {
    var used := UsedLimits(os);
    FirstFreeExactly(used, POWER_SLOTS);
    assert POWER_SLOTS[0] == 330 && POWER_SLOTS[1] == 195 && POWER_SLOTS[2] == 145 && POWER_SLOTS[3] == 115;
  }

  /** The same by the connectors: the offer is the highest of the four slots that no running session of a
      smart connector draws, or the base limit when each is drawn by one. */
  lemma OfferedExactly(os: seq<Outlet>)
    ensures var r := Offer(os);
            && (r == 330 || r == 195 || r == 145 || r == 115 || r == 85)
            && (r > 85 ==> !Drawn(os, r))
            && (r < 330 ==> Drawn(os, 330)) && (r < 195 ==> Drawn(os, 195))
            && (r < 145 ==> Drawn(os, 145)) && (r < 115 ==> Drawn(os, 115))
  {
    OfferExactly(os);
    forall x ensures Drawn(os, x) <==> x in UsedLimits(os) {
      if x in UsedLimits(os) {
        var o :| o in os && Active(o) && o.limit == x;
      }
    }
    assert Slot(330) && Slot(195) && Slot(145) && Slot(115);
  }

  /** A running session of a smart connector draws this limit. */
  predicate Drawn(os: seq<Outlet>, limit: int) {
    exists o :: o in os && o.smart && o.transaction >= 0 && o.limit == limit
  }

  /** What a pass leaves on each connector: nothing but limits changes, and no limit of one that is not
      smart. A running session keeps a limit it has, and is given the offer if it has none and its profile
      could be queued. An idle connector ends without a limit; a negative one stays if no session runs. */
  lemma PassExactly(os: seq<Outlet>, refused: set<nat>, i: nat)
    requires i < |os|
    ensures |Pass(os, refused)| == |os|
    ensures var o, r := os[i], Pass(os, refused)[i];
            && r == o.(limit := r.limit)
            && (!o.smart || (o.transaction >= 0 && (o.limit > 0 || i in refused)) ==> r.limit == o.limit)
            && (o.smart && o.transaction >= 0 && o.limit <= 0 && i !in refused ==> r.limit == Offer(os))
            && (o.smart && o.transaction < 0 && o.limit >= 0 ==> r.limit == 0)
            && (o.smart && o.transaction < 0 && o.limit < 0 ==>
                  r.limit == if exists q :: 0 <= q < |os| && os[q].smart && os[q].transaction >= 0 then 0 else o.limit)
  {
    if o :| o in os && Active(o) {
      var q :| 0 <= q < |os| && os[q] == o;
      assert Active(os[q]);
    }
    assert forall q :: 0 <= q < |os| ==> (Active(os[q]) <==> os[q].smart && os[q].transaction >= 0);
  }

  predicate Lawful(o: Outlet) {
    Active(o) && o.limit > 0 ==> Slot(o.limit) || o.limit == BASE_LIMIT
  }

  predicate Shared(a: Outlet, b: Outlet) {
    Active(a) && Active(b) && a.limit == b.limit > BASE_LIMIT
  }

  /** No two sessions share a limit above base. */
  ghost predicate Injective(os: seq<Outlet>) {
    forall i, j :: 0 <= i < j < |os| ==> !Shared(os[i], os[j])
  }

  /** What a pass does to one connector. */
  lemma PassAt(os: seq<Outlet>, refused: set<nat>, i: nat)
    requires i < |os|
    ensures |Pass(os, refused)| == |os|
    ensures var o, r := os[i], Pass(os, refused)[i];
            && r.smart == o.smart && r.transaction == o.transaction
            && (Active(o) ==> r.limit == if o.limit > 0 then o.limit else if i in refused then o.limit else Offer(os))
    ensures Active(os[i]) ==> os[i].limit in UsedLimits(os)
  {
  }

  /** An undisturbed pass keeps slots from being shared exactly when it has only the base limit left to
      offer, or queues a profile for at most one session. */
  lemma PassInjectiveExactly(os: seq<Outlet>, refused: set<nat>)
    requires Injective(os)
    ensures Injective(Pass(os, refused))
            <==> Offer(os) == BASE_LIMIT || forall i, j :: i in Sends(os) - refused && j in Sends(os) - refused ==> i == j
  {
    OfferExactly(os);
    var r := Pass(os, refused);
    if Offer(os) == BASE_LIMIT || forall i, j :: i in Sends(os) - refused && j in Sends(os) - refused ==> i == j {
      forall i, j | 0 <= i < j < |r| ensures !Shared(r[i], r[j]) {
        PassAt(os, refused, i);
        PassAt(os, refused, j);
        assert Limitless(os[i]) && i !in refused ==> i in Sends(os) - refused;
        assert Limitless(os[j]) && j !in refused ==> j in Sends(os) - refused;
        assert !Shared(os[i], os[j]);
      }
    } else {
      var i, j :| i in Sends(os) - refused && j in Sends(os) - refused && i != j;
      PassAt(os, refused, i);
      PassAt(os, refused, j);
      assert Shared(r[i], r[j]) && Shared(r[j], r[i]);
      assert !Injective(r) by {
        if i < j { assert Shared(r[i], r[j]); } else { assert Shared(r[j], r[i]); }
      }
    }
  }

  // ---------- runs ----------

  /** The location over time. A pass first reads it, and then comes to one connector after the other;
      meanwhile the handler goes on. The view is what the current pass, or the last one, has read; todo
      are the connectors it has not come to; of each connector, the pass that last gave it a limit. */
  datatype Site = Site(outlets: seq<Outlet>, givenIn: seq<nat>, passes: nat, view: seq<Outlet>, todo: set<nat>)

  /** Sessions begin and end; the handler, which keeps its own copy of a connector, may write it back
      with no limit; a pass reads the location, ending one that was cut short, and writes a connector. */
  datatype Event =
    | Begin(at: nat, transaction: nat)
    | Finish(at: nat)
    | WriteBack(at: nat)
    | Look
    | Write(at: nat, queued: bool)

  /** What a pass writes to a connector, going by what it has read. */
  function Decision(view: seq<Outlet>, i: nat, queued: bool): Option<int>
    requires i < |view|
  {
    var o := view[i];
    if o.smart && o.transaction < 0 && (o.limit > 0 || (o.limit < 0 && exists q :: 0 <= q < |view| && Active(view[q]))) then Some(0)
    else if Limitless(o) && queued then Some(Offer(view))
    else None
  }

  function Upto(n: nat): (all: set<nat>)
    ensures forall i: nat :: i in all <==> i < n
  {
    if n == 0 then {} else Upto(n - 1) + {n - 1}
  }

  function Step(s: Site, e: Event): Site {
    match e
    case Begin(i, t) =>
      if i < |s.outlets| then s.(outlets := s.outlets[i := s.outlets[i].(transaction := t, limit := 0)]) else s
    case Finish(i) =>
      if i < |s.outlets| then s.(outlets := s.outlets[i := s.outlets[i].(transaction := -1, limit := 0)]) else s
    case WriteBack(i) =>
      if i < |s.outlets| then s.(outlets := s.outlets[i := s.outlets[i].(limit := 0)]) else s
    case Look =>
      s.(passes := s.passes + 1, view := s.outlets, todo := Upto(|s.outlets|))
    case Write(i, queued) =>
      if i !in s.todo || i >= |s.view| || i >= |s.outlets| || i >= |s.givenIn| then s else Written(s, i, queued)
  }

  function Written(s: Site, i: nat, queued: bool): Site
    requires i < |s.view| && i < |s.outlets| && i < |s.givenIn|
  {
    match Decision(s.view, i, queued)
    case None => s.(todo := s.todo - {i})
    case Some(v) =>
      s.(outlets := s.outlets[i := s.outlets[i].(limit := v)], givenIn := s.givenIn[i := s.passes], todo := s.todo - {i})
  }

  function Run(s: Site, events: seq<Event>): Site
    decreases |events|
  {
    if events == [] then s else Run(Step(s, events[0]), events[1..])
  }

  /** A limit above base was given by the current pass, or is the one that pass has read. */
  predicate Traced(s: Site, q: nat)
    requires q < |s.outlets| == |s.view| == |s.givenIn|
  {
    var o, v := s.outlets[q], s.view[q];
    && o.smart == v.smart && Lawful(o)
    && (Active(o) && o.limit > BASE_LIMIT ==>
          || (s.givenIn[q] == s.passes && o.limit == Offer(s.view) && Limitless(v))
          || (Active(v) && v.limit == o.limit))
    && (q in s.todo && Decision(s.view, q, true).Some? ==> !(Active(o) && o.limit > 0))
  }

  /** Two sessions share a limit above base only if the same pass gave it to both. */
  ghost predicate Separated(s: Site) {
    && |s.givenIn| == |s.outlets| == |s.view|
    && (forall q :: q in s.todo ==> q < |s.outlets|)
    && (forall q :: 0 <= q < |s.outlets| ==> Traced(s, q))
    && (forall i, j :: 0 <= i < j < |s.outlets| && Shared(s.outlets[i], s.outlets[j]) ==> s.givenIn[i] == s.givenIn[j])
  }

  lemma WriteSeparated(s: Site, i: nat, queued: bool)
    requires Separated(s) && i in s.todo
    ensures Separated(Written(s, i, queued))
  {
    var r := Written(s, i, queued);
    OfferExactly(s.view);
    assert Traced(s, i);
    forall q | 0 <= q < |r.outlets| ensures Traced(r, q) {
      assert Traced(s, q);
    }
    forall j | 0 <= j < |r.outlets| && j != i && Active(r.outlets[j]) && Active(r.outlets[i])
               && r.outlets[j].limit == r.outlets[i].limit > BASE_LIMIT && Decision(s.view, i, queued).Some?
      ensures s.givenIn[j] == s.passes
    {
      assert Traced(s, j);
      assert Active(s.view[j]) ==> s.view[j].limit in UsedLimits(s.view);
    }
  }

  lemma StepSeparated(s: Site, e: Event)
    requires Separated(s)
    ensures Separated(Step(s, e))
  {
    if e.Write? {
      if e.at in s.todo {
        WriteSeparated(s, e.at, e.queued);
      }
    } else {
      forall q | 0 <= q < |s.outlets| ensures Traced(Step(s, e), q) {
        assert Traced(s, q);
      }
    }
  }

  /** Over every run - any sessions, any passes, any profiles refused, write-backs between a pass's read
      and its writes - two sessions hold the same limit above base only if one pass gave it to both. */
  lemma {:induction false} RunSeparated(s: Site, events: seq<Event>)
    requires Separated(s)
    ensures Separated(Run(s, events))
    decreases |events|
  {
    if events != [] {
      StepSeparated(s, events[0]);
      RunSeparated(Step(s, events[0]), events[1..]);
    }
  }

  // ---------- slots are not shared ----------

  /** A write makes two sessions share a slot exactly when it hands the offer, a slot, to a running
      session while another session the same pass gave it to still holds it. */
  lemma WriteInjectiveExactly(s: Site, i: nat, queued: bool)
    requires Separated(s) && Injective(s.outlets) && i in s.todo
    ensures Injective(Written(s, i, queued).outlets)
            <==> !(&& Limitless(s.view[i]) && queued && Offer(s.view) > BASE_LIMIT && Active(s.outlets[i])
                   && exists j :: 0 <= j < |s.outlets| && j != i && GivenNow(s, j))
  {
    var r := Written(s, i, queued).outlets;
    OfferExactly(s.view);
    assert Traced(s, i);
    if Limitless(s.view[i]) && queued && Offer(s.view) > BASE_LIMIT && Active(s.outlets[i]) {
      if j :| 0 <= j < |s.outlets| && j != i && GivenNow(s, j) {
        assert Shared(r[i], r[j]) && Shared(r[j], r[i]);
        assert !Injective(r) by {
          if i < j { assert Shared(r[i], r[j]); } else { assert Shared(r[j], r[i]); }
        }
      } else {
        forall a, b | 0 <= a < b < |r| ensures !Shared(r[a], r[b]) {
          assert !Shared(s.outlets[a], s.outlets[b]);
          var j := if a == i then b else a;
          assert Traced(s, j);
          assert Active(s.view[j]) ==> s.view[j].limit in UsedLimits(s.view);
          assert !GivenNow(s, j) || (a != i && b != i);
        }
      }
    } else {
      forall a, b | 0 <= a < b < |r| ensures !Shared(r[a], r[b]) {
        assert !Shared(s.outlets[a], s.outlets[b]);
      }
    }
  }

  /** A session that holds what the current pass offers, because that pass gave it. */
  predicate GivenNow(s: Site, j: nat)
    requires j < |s.outlets| == |s.view| == |s.givenIn|
  {
    Active(s.outlets[j]) && s.outlets[j].limit == Offer(s.view) && s.givenIn[j] == s.passes && Limitless(s.view[j])
  }

  /** The pass has only the base limit to offer, or has read at most one limitless session. */
  ghost predicate Narrow(view: seq<Outlet>) {
    Offer(view) == BASE_LIMIT || forall i, j :: i in Sends(view) && j in Sends(view) ==> i == j
  }

  /** So is every pass of a run. */
  ghost predicate OneAtATime(s: Site, events: seq<Event>)
    decreases |events|
  {
    events != [] ==> (events[0].Look? ==> Narrow(s.outlets)) && OneAtATime(Step(s, events[0]), events[1..])
  }

  lemma StepInjective(s: Site, e: Event)
    requires Separated(s) && Injective(s.outlets) && Narrow(s.view) && (e.Look? ==> Narrow(s.outlets))
    ensures Injective(Step(s, e).outlets) && Narrow(Step(s, e).view)
  {
    if e.Write? {
      if e.at in s.todo {
        OfferExactly(s.view);
        WriteInjectiveExactly(s, e.at, e.queued);
        assert forall j :: 0 <= j < |s.view| && Limitless(s.view[j]) ==> j in Sends(s.view);
      }
    } else {
      var r := Step(s, e).outlets;
      forall a, b | 0 <= a < b < |r| ensures !Shared(r[a], r[b]) {
        assert !Shared(s.outlets[a], s.outlets[b]);
      }
    }
  }

  /** When sessions are limited one at a time, slots are never shared, and the current drawn by all
      sessions together stays within 785A plus the base limit for each session beyond the fourth. */
  lemma {:induction false} RunInjective(s: Site, events: seq<Event>)
    requires Separated(s) && Injective(s.outlets) && Narrow(s.view) && OneAtATime(s, events)
    ensures var r := Run(s, events).outlets;
            Injective(r) && Total(r) <= 785 + BASE_LIMIT * Max(0, Sessions(r) - 4)
    decreases |events|
  {
    if events == [] {
      forall i | 0 <= i < |s.outlets| ensures Lawful(s.outlets[i]) {
        assert Traced(s, i);
      }
      TotalBounded(s.outlets);
    } else {
      StepSeparated(s, events[0]);
      StepInjective(s, events[0]);
      RunInjective(Step(s, events[0]), events[1..]);
    }
  }

  // ---------- a pass nothing gets in between ----------

  function Writes(n: nat, refused: set<nat>): seq<Event> {
    seq(n, i requires 0 <= i < n => Write(i, i !in refused))
  }

  /** Read and written without interruption, a pass does to the location what Pass says. */
  lemma UndisturbedPass(s: Site, refused: set<nat>)
    requires |s.givenIn| == |s.outlets|
    ensures Run(s, [Look] + Writes(|s.outlets|, refused)).outlets == Pass(s.outlets, refused)
  {
    var events := [Look] + Writes(|s.outlets|, refused);
    assert events[1..] == Writes(|s.outlets|, refused)[0..];
    WritesFrom(Step(s, Look), s.outlets, refused, 0);
  }

  lemma PassDecides(os: seq<Outlet>, refused: set<nat>, i: nat)
    requires i < |os|
    ensures var d := Decision(os, i, i !in refused);
            |Pass(os, refused)| == |os| && Pass(os, refused)[i] == if d.Some? then os[i].(limit := d.value) else os[i]
  {
  }

  lemma {:induction false} WritesFrom(s: Site, os: seq<Outlet>, refused: set<nat>, k: nat)
    requires k <= |os| == |s.outlets| == |s.givenIn| && s.view == os
    requires forall i :: k <= i < |os| ==> i in s.todo && s.outlets[i] == os[i]
    requires forall i :: 0 <= i < k ==> s.outlets[i] == Pass(os, refused)[i]
    ensures Run(s, Writes(|os|, refused)[k..]).outlets == Pass(os, refused)
    decreases |os| - k
  {
    var rest := Writes(|os|, refused)[k..];
    if k < |os| {
      assert rest[0] == Write(k, k !in refused) && rest[1..] == Writes(|os|, refused)[k + 1..];
      PassDecides(os, refused, k);
      WritesFrom(Step(s, rest[0]), os, refused, k + 1);
    }
  }

  // ---------- total current ----------

  function Sessions(os: seq<Outlet>): nat {
    if os == [] then 0 else (if Active(os[0]) then 1 else 0) + Sessions(os[1..])
  }

  function Total(os: seq<Outlet>): int {
    if os == [] then 0 else (if Active(os[0]) then Max(0, os[0].limit) else 0) + Total(os[1..])
  }

  /** What the slots in a set carry above the base limit. */
  function Above(held: set<int>): int {
    (if 330 in held then 245 else 0) + (if 195 in held then 110 else 0)
    + (if 145 in held then 60 else 0) + (if 115 in held then 30 else 0)
  }

  lemma {:induction false} TotalOverHeld(os: seq<Outlet>, held: set<int>)
    requires Injective(os) && (forall o :: o in os ==> Lawful(o))
    requires forall o :: o in os && Active(o) && o.limit > BASE_LIMIT ==> o.limit !in held
    ensures Total(os) + Above(held) <= BASE_LIMIT * Sessions(os) + 445
  {
    if os != [] {
      var o, rest := os[0], os[1..];
      assert os == [o] + rest && o in os && Lawful(o);
      var held' := if Active(o) && o.limit > BASE_LIMIT then held + {o.limit} else held;
      forall q | q in rest && Active(q) && q.limit > BASE_LIMIT ensures q.limit !in held' {
        var k :| 0 <= k < |rest| && rest[k] == q;
        assert os[k + 1] == q && !Shared(os[0], os[k + 1]);
      }
      assert Injective(rest) by {
        forall i, j | 0 <= i < j < |rest| ensures !Shared(rest[i], rest[j]) {
          assert rest[i] == os[i + 1] && rest[j] == os[j + 1];
        }
      }
      TotalOverHeld(rest, held');
    }
  }

  lemma TotalBounded(os: seq<Outlet>)
    requires Injective(os) && forall i :: 0 <= i < |os| ==> Lawful(os[i])
    ensures Total(os) <= 785 + BASE_LIMIT * Max(0, Sessions(os) - 4)
  {
    TotalOverHeld(os, {});
  }

  // ---------- a session keeps its limit ----------

  /** One event changes the limit of a limited session exactly when it begins, ends or writes back
      that connector: a pass never does, even if it read the connector before the session was limited. */
  lemma LimitKeptExactly(s: Site, e: Event, i: nat)
    requires Separated(s) && i < |s.outlets| && Active(s.outlets[i]) && s.outlets[i].limit > 0
    ensures var r := Step(s, e).outlets;
            |r| == |s.outlets| && (r[i].limit == s.outlets[i].limit <==> e.Look? || e.Write? || e.at != i)
  {
    assert Traced(s, i);
  }

  /** So over any run that does not begin, end or write back a limited session's connector, its limit
      and its transaction stay. */
  lemma {:induction false} LimitKept(s: Site, events: seq<Event>, i: nat)
    requires Separated(s) && i < |s.outlets| && Active(s.outlets[i]) && s.outlets[i].limit > 0
    requires forall e :: e in events ==> e.Look? || e.Write? || e.at != i
    ensures var r := Run(s, events).outlets; i < |r| && r[i] == s.outlets[i]
    decreases |events|
  {
    if events != [] {
      assert events[0] in events;
      assert Traced(s, i);
      StepSeparated(s, events[0]);
      LimitKept(Step(s, events[0]), events[1..], i);
    }
  }

  /** A pass that meets no limitless session sends nothing and leaves every session as it is. */
  lemma QuietPass(os: seq<Outlet>, refused: set<nat>)
    requires Sends(os) == {}
    ensures var r := Pass(os, refused);
            |r| == |os| && forall i :: 0 <= i < |os| && Active(os[i]) ==> r[i] == os[i]
  {
    forall i | 0 <= i < |os| && Active(os[i]) ensures Pass(os, refused)[i] == os[i] {
      PassAt(os, refused, i);
      assert i !in Sends(os);
    }
  }

  /** Passes run one at a time and so do sessions, yet write-backs alone can put two running sessions
      on the same slot: both lose their limit and the next pass gives them one and the same. */
  lemma WriteBacksShareSlot()
    ensures var os := [Outlet(true, 7, 330), Outlet(true, 8, 195)];
            var s := Site(os, [1, 2], 2, os, {});
            var r := Run(s, [WriteBack(0), WriteBack(1)] + ([Look] + Writes(2, {}))).outlets;
            Separated(s) && Injective(s.outlets) && |r| == 2 && Shared(r[0], r[1])
  {
    var os := [Outlet(true, 7, 330), Outlet(true, 8, 195)];
    var s := Site(os, [1, 2], 2, os, {});
    var s1, s2 := Step(s, WriteBack(0)), Step(Step(s, WriteBack(0)), WriteBack(1));
    var pass := [Look] + Writes(2, {});
    var events := [WriteBack(0), WriteBack(1)] + pass;
    assert events[1..][1..] == pass;
    assert Run(s, events) == Run(s1, events[1..]) == Run(s2, pass);
    assert s2.outlets == [Outlet(true, 7, 0), Outlet(true, 8, 0)];
    UndisturbedPass(s2, {});
    PassAt(s2.outlets, {}, 0);
    PassAt(s2.outlets, {}, 1);
    assert UsedLimits(s2.outlets) == {0};
    assert Offer(s2.outlets) == 330;
    assert Traced(s, 0) && Traced(s, 1);
  }

  // ---------- the implementation ----------

  /** The balancer, over the connector documents of the location it has just read. */
  class Balancer {
    const outlets: array<Outlet>

    constructor (outlets: array<Outlet>)
      ensures this.outlets == outlets
    {
      this.outlets := outlets;
    }

    /** A pass; a location that was not found or has no power limit is left alone. */
    method CheckPowerLimit(limited: bool, refused: set<nat>) returns (sent: seq<nat>)
      modifies outlets
      ensures !limited ==> outlets[..] == old(outlets[..]) && sent == []
      ensures limited ==> outlets[..] == Pass(old(outlets[..]), refused)
      ensures limited ==> forall i :: i in sent <==> i in Sends(old(outlets[..])) && i !in refused
    {
      sent := [];
      if !limited {
        return;
      }
      ghost var os := outlets[..];
      var used, active := ClearIdle();
      if active == 0 {
        assert outlets[..] == Pass(os, refused);
        return;
      }
      var offer := PickSlot(used);
      var i := 0;
      while i < outlets.Length
        invariant 0 <= i <= outlets.Length
        invariant forall k :: 0 <= k < i ==> outlets[k] == Assigned(Cleared(os[k]), offer, k !in refused)
        invariant forall k :: i <= k < outlets.Length ==> outlets[k] == Cleared(os[k])
        invariant forall k :: k in sent <==> 0 <= k < i && Limitless(os[k]) && k !in refused
      {
        var o := outlets[i];
        if o.smart && !(o.transaction >= 0 && o.limit > 0) {
          if o.transaction < 0 {
            outlets[i] := o.(limit := 0);
          } else if i !in refused {
            sent := sent + [i];
            outlets[i] := o.(limit := offer);
          }
        }
        i := i + 1;
      }
      assert outlets[..] == Pass(os, refused);
    }

    /** The first loop: limits in use are collected, and idle connectors lose theirs. */
    method ClearIdle() returns (used: set<int>, active: nat)
      modifies outlets
      ensures forall k :: 0 <= k < outlets.Length ==> outlets[k] == Cleared(old(outlets[..])[k])
      ensures used == UsedLimits(old(outlets[..]))
      ensures active > 0 <==> exists k :: 0 <= k < outlets.Length && Active(old(outlets[..])[k])
    {
      ghost var os := outlets[..];
      used, active := {}, 0;
      var i := 0;
      while i < outlets.Length
        invariant 0 <= i <= outlets.Length
        invariant forall k :: 0 <= k < i ==> outlets[k] == Cleared(os[k])
        invariant forall k :: i <= k < outlets.Length ==> outlets[k] == os[k]
        invariant used == UsedLimits(os[..i])
        invariant active > 0 <==> exists k :: 0 <= k < i && Active(os[k])
      {
        var o := outlets[i];
        assert os[..i + 1] == os[..i] + [o];
        if o.smart {
          if o.transaction >= 0 {
            active := active + 1;
            used := used + {o.limit};
            assert Active(os[i]);
          } else if o.limit > 0 {
            outlets[i] := o.(limit := 0);
          }
        }
        UsedExtends(os[..i], o);
        i := i + 1;
      }
      assert os[..i] == os;
    }

    method PickSlot(used: set<int>) returns (offer: int)
      ensures offer == FirstFree(used, POWER_SLOTS)
    {
      offer := BASE_LIMIT;
      var k := 0;
      while k < |POWER_SLOTS|
        invariant 0 <= k <= |POWER_SLOTS| && offer == BASE_LIMIT
        invariant FirstFree(used, POWER_SLOTS[k..]) == FirstFree(used, POWER_SLOTS)
      {
        ghost var rest := POWER_SLOTS[k..];
        assert rest[1..] == POWER_SLOTS[k + 1..];
        if POWER_SLOTS[k] !in used {
          return POWER_SLOTS[k];
        }
        k := k + 1;
      }
    }
  }

  lemma UsedExtends(os: seq<Outlet>, o: Outlet)
    ensures UsedLimits(os + [o]) == UsedLimits(os) + (if Active(o) then {o.limit} else {})
  {
    forall x | x in UsedLimits(os) ensures x in UsedLimits(os + [o]) {
      var q :| q in os && Active(q) && q.limit == x;
      assert q in os + [o];
    }
    if Active(o) {
      assert o in os + [o];
    }
  }
}
