/** What charge points accept in charging profiles, and how the balancer learns it
    (power/capabilities.go, power/load_balancer.go). */
module Capabilities {
  import opened Domain

  const TX_PROFILE_STACK_LEVEL := 10
  const STACK_LEVEL_RETRIES := 1
  const DISCOVERY_RETRY_INTERVAL := 5 * MINUTE

  /** lastAttempt zero means never asked. The zero value of the whole record is UNKNOWN. */
  datatype Caps = Caps(known: bool, stackLevelKnown: bool, maxStackLevel: int, allowsCurrent: bool, lastAttempt: int)

  const UNKNOWN := Caps(false, false, 0, false, 0)

  function StackLevelFor(c: Caps, desired: int): int {
    if !c.stackLevelKnown || c.maxStackLevel >= desired then desired
    else if c.maxStackLevel < 0 then 0
    else c.maxStackLevel
  }

  /** A configuration key of the answer: the level, if it is a number, or the accepted units. */
  datatype ConfigurationKey = MaxStackLevel(level: Option<int>) | AllowedRateUnit(units: seq<string>) | OtherKey

  const RATE_UNIT_CURRENT := "Current"

  /** Absent keys leave the protocol's defaults; a level that is not a number makes the whole answer
      unusable; the last key of a kind wins. */
  function ParseKeys(keys: seq<ConfigurationKey>, c: Caps): Option<Caps>
    decreases |keys|
  {
    if keys == [] then Some(c)
    else match keys[0]
      case MaxStackLevel(None) => None
      case MaxStackLevel(Some(level)) => ParseKeys(keys[1..], c.(maxStackLevel := level))
      case AllowedRateUnit(units) => ParseKeys(keys[1..], c.(allowsCurrent := RATE_UNIT_CURRENT in units))
      case OtherKey => ParseKeys(keys[1..], c)
  }

  const DEFAULTS := Caps(true, true, TX_PROFILE_STACK_LEVEL, true, 0)

  function ParseCapabilities(keys: seq<ConfigurationKey>): Option<Caps> {
    ParseKeys(keys, DEFAULTS)
  }

  /** Every usable answer is a full configuration: it settles the level and ends discovery. */
  lemma ParsedIsComplete(keys: seq<ConfigurationKey>)
    ensures ParseCapabilities(keys).Some? ==> Complete(ParseCapabilities(keys).value)
    ensures ParseCapabilities(keys).None? <==> MaxStackLevel(None) in keys
  {
    ParseKeysComplete(keys, DEFAULTS);
  }

  predicate Complete(c: Caps) {
    c.known && c.stackLevelKnown && c.lastAttempt == 0
  }

  lemma {:induction false} ParseKeysComplete(keys: seq<ConfigurationKey>, c: Caps)
    requires Complete(c)
    ensures ParseKeys(keys, c).Some? ==> Complete(ParseKeys(keys, c).value)
    ensures ParseKeys(keys, c).None? <==> MaxStackLevel(None) in keys
    decreases |keys|
  {
    if keys != [] {
      assert keys == [keys[0]] + keys[1..];
      match keys[0]
      case MaxStackLevel(None) =>
      case MaxStackLevel(Some(level)) => ParseKeysComplete(keys[1..], c.(maxStackLevel := level));
      case AllowedRateUnit(units) => ParseKeysComplete(keys[1..], c.(allowsCurrent := RATE_UNIT_CURRENT in units));
      case OtherKey => ParseKeysComplete(keys[1..], c);
    }
  }

  predicate LevelKey(key: ConfigurationKey) {
    key.MaxStackLevel?
  }

  predicate UnitsKey(key: ConfigurationKey) {
    key.AllowedRateUnit?
  }

  /** The last key of a kind. */
  ghost predicate Last(keys: seq<ConfigurationKey>, kind: ConfigurationKey -> bool, k: int) {
    0 <= k < |keys| && kind(keys[k]) && forall j :: k < j < |keys| ==> !kind(keys[j])
  }

  /** A usable answer tells what its last key of each kind says; without one the protocol's defaults hold,
      ten levels and charging limits in ampere. */
  lemma ParsedExactly(keys: seq<ConfigurationKey>)
    requires ParseCapabilities(keys).Some?
    ensures var c := ParseCapabilities(keys).value;
            && (forall k :: Last(keys, LevelKey, k) ==> keys[k].level == Some(c.maxStackLevel))
            && (forall k :: Last(keys, UnitsKey, k) ==> (c.allowsCurrent <==> "Current" in keys[k].units))
            && ((forall k :: 0 <= k < |keys| ==> !LevelKey(keys[k])) ==> c.maxStackLevel == 10)
            && ((forall k :: 0 <= k < |keys| ==> !UnitsKey(keys[k])) ==> c.allowsCurrent)
  {
    ParseKeysExactly(keys, DEFAULTS);
  }

  lemma {:induction false} ParseKeysExactly(keys: seq<ConfigurationKey>, c: Caps)
    requires ParseKeys(keys, c).Some?
    ensures var r := ParseKeys(keys, c).value;
            && (forall k :: Last(keys, LevelKey, k) ==> keys[k].level == Some(r.maxStackLevel))
            && (forall k :: Last(keys, UnitsKey, k) ==> (r.allowsCurrent <==> "Current" in keys[k].units))
            && ((forall k :: 0 <= k < |keys| ==> !LevelKey(keys[k])) ==> r.maxStackLevel == c.maxStackLevel)
            && ((forall k :: 0 <= k < |keys| ==> !UnitsKey(keys[k])) ==> r.allowsCurrent == c.allowsCurrent)
    decreases |keys|
  {
    if keys != [] {
      var rest := keys[1..];
      assert forall j :: 0 <= j < |rest| ==> rest[j] == keys[j + 1];
      match keys[0] {
        case MaxStackLevel(Some(level)) => ParseKeysExactly(rest, c.(maxStackLevel := level));
        case AllowedRateUnit(units) => ParseKeysExactly(rest, c.(allowsCurrent := RATE_UNIT_CURRENT in units));
        case OtherKey => ParseKeysExactly(rest, c);
      }
      LastNext(keys, LevelKey);
      LastNext(keys, UnitsKey);
    }
  }

  lemma LastNext(keys: seq<ConfigurationKey>, kind: ConfigurationKey -> bool)
    requires keys != []
    ensures forall k :: k > 0 && Last(keys, kind, k) ==> Last(keys[1..], kind, k - 1) && keys[1..][k - 1] == keys[k]
    ensures Last(keys, kind, 0) ==> forall j :: 0 <= j < |keys[1..]| ==> !kind(keys[1..][j])
  {
    assert forall j :: 0 <= j < |keys[1..]| ==> keys[1..][j] == keys[j + 1];
  }

  // ---------- the store ----------

  function Entry(entries: map<string, Caps>, cp: string): Caps {
    if cp in entries then entries[cp] else UNKNOWN
  }

  function Recorded(previous: Caps, reported: Caps): Caps {
    if previous.stackLevelKnown && previous.maxStackLevel < reported.maxStackLevel
    then reported.(maxStackLevel := previous.maxStackLevel) else reported
  }

  predicate MayDiscover(c: Caps, now: int) {
    !c.known && (c.lastAttempt == 0 || now - c.lastAttempt >= DISCOVERY_RETRY_INTERVAL)
  }

  predicate Lowers(c: Caps, level: int) {
    !c.stackLevelKnown || c.maxStackLevel > level
  }

  function Min(a: int, b: int): int {
    if a <= b then a else b
  }

  class CapabilityStore {
    var entries: map<string, Caps>

    constructor ()
      ensures entries == map[]
    {
      entries := map[];
    }

    method Get(cp: string) returns (c: Caps)
      ensures c == Entry(entries, cp)
    {
      c := Entry(entries, cp);
    }

    method Record(cp: string, reported: Caps) returns (stored: Caps)
      modifies this
      ensures stored == Recorded(Entry(old(entries), cp), reported)
      ensures stored == reported.(maxStackLevel := stored.maxStackLevel)
      ensures var previous := Entry(old(entries), cp);
              stored.maxStackLevel == if previous.stackLevelKnown then Min(previous.maxStackLevel, reported.maxStackLevel)
                                      else reported.maxStackLevel
      ensures entries == old(entries)[cp := stored]
    {
      stored := reported;
      var previous := Entry(entries, cp);
      if previous.stackLevelKnown && previous.maxStackLevel < reported.maxStackLevel {
        stored := stored.(maxStackLevel := previous.maxStackLevel);
      }
      entries := entries[cp := stored];
    }

    method BeginDiscovery(cp: string, now: int) returns (granted: bool)
      modifies this
      ensures granted == MayDiscover(Entry(old(entries), cp), now)
      ensures var e := Entry(old(entries), cp);
              !granted <==> e.known || (e.lastAttempt != 0 && now < e.lastAttempt + 5 * MINUTE)
      ensures entries == if granted then old(entries)[cp := Entry(old(entries), cp).(lastAttempt := now)] else old(entries)
    {
      var entry := Entry(entries, cp);
      if entry.known {
        return false;
      }
      if entry.lastAttempt != 0 && now - entry.lastAttempt < DISCOVERY_RETRY_INTERVAL {
        return false;
      }
      entries := entries[cp := entry.(lastAttempt := now)];
      granted := true;
    }

    method LowerStackLevel(cp: string, level: int) returns (changed: bool)
      modifies this
      ensures changed == Lowers(Entry(old(entries), cp), level)
      ensures !changed <==> Entry(old(entries), cp).stackLevelKnown && Entry(old(entries), cp).maxStackLevel <= level
      ensures entries == if changed then old(entries)[cp := Entry(old(entries), cp).(stackLevelKnown := true, maxStackLevel := level)]
                         else old(entries)
    {
      var entry := Entry(entries, cp);
      if entry.stackLevelKnown && entry.maxStackLevel <= level {
        return false;
      }
      entries := entries[cp := entry.(stackLevelKnown := true, maxStackLevel := level)];
      changed := true;
    }
  }

  // ---------- interleavings ----------

  datatype Verdict = Accepted | Rejected | NotSupported | NoResponse | Unreadable

  /** Where an assignment stands: its last profile has not been ruled on; a refusal has lowered the
      ceiling and the retry is about to read it; or it has ended. */
  datatype Phase = Waiting | Stepping | Over

  /** The profiles sent for one assignment: the stack level of each, and the retries still allowed. */
  datatype Chain = Chain(chargePoint: string, transaction: int, levels: seq<int>, retriesLeft: int, phase: Phase)

  /** The store, the assignments under way, and, for each charge point, when a read was granted. */
  datatype State = State(entries: map<string, Caps>, chains: map<nat, Chain>, grants: map<string, seq<int>>)

  datatype Event =
    | Read(cp: string, reported: Caps)
    | Ask(cp: string, now: int)
    | Assign(tag: nat, cp: string, transaction: int, queued: bool)
    | Rule(tag: nat, verdict: Verdict)
    | Retry(tag: nat, sameSession: bool, queued: bool)

  predicate AmperesRefused(c: Caps) {
    c.known && !c.allowsCurrent
  }

  function Grants(s: State, cp: string): seq<int> {
    if cp in s.grants then s.grants[cp] else []
  }

  function Step(s: State, e: Event): State {
    match e
    case Read(cp, reported) =>
      s.(entries := s.entries[cp := Recorded(Entry(s.entries, cp), reported)])
    case Ask(cp, now) =>
      var c := Entry(s.entries, cp);
      if MayDiscover(c, now)
      then s.(entries := s.entries[cp := c.(lastAttempt := now)], grants := s.grants[cp := Grants(s, cp) + [now]])
      else s
    case Assign(tag, cp, transaction, queued) =>
      var c := Entry(s.entries, cp);
      if tag in s.chains || AmperesRefused(c) || !queued then s
      else s.(chains := s.chains[tag := Chain(cp, transaction, [StackLevelFor(c, TX_PROFILE_STACK_LEVEL)], STACK_LEVEL_RETRIES, Waiting)])
    case Rule(tag, verdict) =>
      if tag !in s.chains || !s.chains[tag].phase.Waiting? || s.chains[tag].levels == [] then s
      else Ruled(s, tag, s.chains[tag], verdict)
    case Retry(tag, same, queued) =>
      if tag !in s.chains || !s.chains[tag].phase.Stepping? then s
      else Retried(s, tag, s.chains[tag], same, queued)
  }

  /** The verdict callback, up to where it has lowered the ceiling: only a refusal steps down, only if a
      retry is left, the level is not the lowest, and the refusal teaches something new. */
  function Ruled(s: State, tag: nat, c: Chain, verdict: Verdict): State
    requires c.levels != []
  {
    var level := c.levels[|c.levels| - 1];
    var entry := Entry(s.entries, c.chargePoint);
    if c.retriesLeft <= 0 || level <= 0 || (verdict != Rejected && verdict != NotSupported) || !Lowers(entry, level - 1)
    then s.(chains := s.chains[tag := c.(phase := Over)])
    else s.(entries := s.entries[c.chargePoint := entry.(stackLevelKnown := true, maxStackLevel := level - 1)],
            chains := s.chains[tag := c.(phase := Stepping)])
  }

  /** The retry reads the store again: other verdicts and reads may have come in between. */
  function Retried(s: State, tag: nat, c: Chain, same: bool, queued: bool): State {
    var entry := Entry(s.entries, c.chargePoint);
    s.(chains := s.chains[tag :=
         if !same || AmperesRefused(entry) || !queued then c.(phase := Over)
         else c.(levels := c.levels + [StackLevelFor(entry, TX_PROFILE_STACK_LEVEL)], retriesLeft := c.retriesLeft - 1, phase := Waiting)])
  }

  function Run(s: State, events: seq<Event>): State
    decreases |events|
  {
    if events == [] then s else Run(Step(s, events[0]), events[1..])
  }

  /** Answers are complete configurations, and the clock is past the zero time. */
  predicate Real(e: Event) {
    (e.Read? ==> Complete(e.reported)) && (e.Ask? ==> e.now > 0)
  }

  /** The learned ceiling of one record is no higher than that of another. */
  predicate NoHigher(c: Caps, before: Caps) {
    (before.stackLevelKnown ==> c.stackLevelKnown && c.maxStackLevel <= before.maxStackLevel) && (before.known ==> c.known)
  }

  /** Strictly descending levels between 0 and 10, at most two of them. */
  ghost predicate Descending(c: Chain) {
    && 1 <= |c.levels| && |c.levels| + c.retriesLeft == 1 + STACK_LEVEL_RETRIES && c.retriesLeft >= 0
    && (forall k :: 0 <= k < |c.levels| ==> 0 <= c.levels[k] <= TX_PROFILE_STACK_LEVEL)
    && (forall k :: 0 < k < |c.levels| ==> c.levels[k] < c.levels[k - 1])
  }

  ghost predicate Spaced(g: seq<int>) {
    forall k :: 0 < k < |g| ==> g[k] - g[k - 1] >= DISCOVERY_RETRY_INTERVAL
  }

  /** While a configuration is not known, the attempt on record is the last granted read. */
  predicate Attempted(s: State, cp: string) {
    var g := Grants(s, cp);
    !Entry(s.entries, cp).known && g != [] ==> Entry(s.entries, cp).lastAttempt == g[|g| - 1] > 0
  }

  /** A chain about to retry has a retry left and has brought the ceiling below its last level. */
  ghost predicate Stepped(s: State, c: Chain) {
    c.phase.Stepping? && c.levels != [] ==>
      var level, entry := c.levels[|c.levels| - 1], Entry(s.entries, c.chargePoint);
      level > 0 && c.retriesLeft > 0 && entry.stackLevelKnown && entry.maxStackLevel < level
  }

  ghost predicate Sane(s: State) {
    && (forall tag :: tag in s.chains ==> Descending(s.chains[tag]) && Stepped(s, s.chains[tag]))
    && (forall cp :: Spaced(Grants(s, cp)))
    && (forall cp :: Attempted(s, cp))
  }

  /** A read is granted only when the last one is at least the retry interval old. */
  lemma AskSpaced(s: State, cp: string, now: int)
    requires Sane(s) && now > 0
    ensures forall other :: Spaced(Grants(Step(s, Ask(cp, now)), other))
  {
    var r := Step(s, Ask(cp, now));
    forall other ensures Spaced(Grants(r, other)) {
      var g := Grants(s, other);
      assert Spaced(g);
      assert Attempted(s, other);
      if other == cp && MayDiscover(Entry(s.entries, cp), now) {
        assert Grants(r, cp) == g + [now];
        assert g != [] ==> now - g[|g| - 1] >= DISCOVERY_RETRY_INTERVAL;
      }
    }
  }

  /** Later states keep every assignment, its transaction and the levels already sent. */
  predicate Extends(r: State, s: State) {
    forall tag :: tag in s.chains ==>
      && tag in r.chains
      && r.chains[tag].transaction == s.chains[tag].transaction
      && s.chains[tag].levels <= r.chains[tag].levels
  }

  /** One charge point across a step: its ceiling never rises, and until its configuration is known
      its last attempt is the last granted read. */
  lemma StepEntry(s: State, e: Event, cp: string)
    requires Sane(s) && Real(e)
    ensures NoHigher(Entry(Step(s, e).entries, cp), Entry(s.entries, cp))
    ensures Attempted(Step(s, e), cp)
  {
    assert Attempted(s, cp);
  }

  /** One assignment across a step. */
  lemma StepChain(s: State, e: Event, tag: nat)
    requires Sane(s) && Real(e) && tag in Step(s, e).chains
    ensures Descending(Step(s, e).chains[tag]) && Stepped(Step(s, e), Step(s, e).chains[tag])
  {
    if tag in s.chains {
      var c := s.chains[tag];
      assert Descending(c) && Stepped(s, c);
      if e.Retry? && e.tag == tag && c.phase.Stepping? {
        RetriedDescends(s, tag, e.sameSession, e.queued);
      } else if e.Rule? && e.tag == tag && c.phase.Waiting? {
        RuledSteps(s, tag, e.verdict);
      } else {
        StepEntry(s, e, c.chargePoint);
        assert Step(s, e).chains[tag] == c;
      }
    }
  }

  lemma RuledSteps(s: State, tag: nat, verdict: Verdict)
    requires tag in s.chains && Descending(s.chains[tag])
    ensures var r := Ruled(s, tag, s.chains[tag], verdict);
            tag in r.chains && Descending(r.chains[tag]) && Stepped(r, r.chains[tag])
  {
  }

  lemma RetriedDescends(s: State, tag: nat, same: bool, queued: bool)
    requires tag in s.chains && s.chains[tag].phase.Stepping? && Descending(s.chains[tag]) && Stepped(s, s.chains[tag])
    ensures var r := Retried(s, tag, s.chains[tag], same, queued);
            tag in r.chains && Descending(r.chains[tag]) && !r.chains[tag].phase.Stepping?
  {
    var r := Retried(s, tag, s.chains[tag], same, queued);
    assert |r.chains[tag].levels| <= |s.chains[tag].levels| + 1;
  }

  lemma StepExtends(s: State, e: Event)
    ensures Extends(Step(s, e), s)
  {
  }

  lemma StepSpaced(s: State, e: Event)
    requires Sane(s) && Real(e)
    ensures forall cp :: Spaced(Grants(Step(s, e), cp))
  {
    if e.Ask? {
      AskSpaced(s, e.cp, e.now);
    } else {
      assert forall cp :: Grants(Step(s, e), cp) == Grants(s, cp);
    }
  }

  lemma StepChains(s: State, e: Event)
    requires Sane(s) && Real(e)
    ensures forall tag :: tag in Step(s, e).chains ==> Descending(Step(s, e).chains[tag]) && Stepped(Step(s, e), Step(s, e).chains[tag])
  {
    forall tag | tag in Step(s, e).chains
      ensures Descending(Step(s, e).chains[tag]) && Stepped(Step(s, e), Step(s, e).chains[tag])
    {
      StepChain(s, e, tag);
    }
  }

  lemma StepEntries(s: State, e: Event)
    requires Sane(s) && Real(e)
    ensures forall cp :: NoHigher(Entry(Step(s, e).entries, cp), Entry(s.entries, cp)) && Attempted(Step(s, e), cp)
  {
    forall cp ensures NoHigher(Entry(Step(s, e).entries, cp), Entry(s.entries, cp)) && Attempted(Step(s, e), cp) {
      StepEntry(s, e, cp);
    }
  }

  lemma StepSane(s: State, e: Event)
    requires Sane(s) && Real(e)
    ensures Sane(Step(s, e)) && Extends(Step(s, e), s)
    ensures forall cp :: NoHigher(Entry(Step(s, e).entries, cp), Entry(s.entries, cp))
  {
    StepSpaced(s, e);
    StepEntries(s, e);
    StepChains(s, e);
    StepExtends(s, e);
  }

  /** Over every interleaving of boot reads, lazy reads, assignments and verdicts of any connectors:
      the ceiling learned for a charge point never rises and a known configuration stays known; an
      assignment sends at most two profiles, for one transaction, at strictly descending levels
      within 0 to 10; and granted reads are at least the retry interval apart. */
  lemma {:induction false} RunSane(s: State, events: seq<Event>, cp: string, tag: nat)
    requires Sane(s) && forall e :: e in events ==> Real(e)
    ensures var r := Run(s, events);
            && Sane(r)
            && NoHigher(Entry(r.entries, cp), Entry(s.entries, cp))
            && Extends(r, s)
            && (tag in r.chains ==> |r.chains[tag].levels| <= 2)
    decreases |events|
  {
    if events != [] {
      assert events[0] in events;
      StepSane(s, events[0]);
      RunSane(Step(s, events[0]), events[1..], cp, tag);
    }
  }

  /** Once a charge point's configuration is known, no read of it is ever granted again. */
  lemma {:induction false} KnownEndsDiscovery(s: State, events: seq<Event>, cp: string)
    requires Sane(s) && (forall e :: e in events ==> Real(e)) && Entry(s.entries, cp).known
    ensures Grants(Run(s, events), cp) == Grants(s, cp)
    decreases |events|
  {
    if events != [] {
      assert events[0] in events;
      StepSane(s, events[0]);
      KnownEndsDiscovery(Step(s, events[0]), events[1..], cp);
    }
  }

  /** How many more steps an assignment can take. */
  function StepsLeft(c: Chain): int {
    match c.phase
    case Waiting => 2 * c.retriesLeft + 1
    case Stepping => 2 * c.retriesLeft
    case Over => 0
  }

  /** Every verdict and every retry brings an assignment closer to its end, and no other event keeps it
      going, so the chain of retries stops. */
  lemma ChainEnds(s: State, e: Event, tag: nat)
    requires Sane(s) && tag in s.chains
    ensures var c, d := s.chains[tag], Step(s, e).chains;
            && tag in d && 0 <= StepsLeft(d[tag]) <= StepsLeft(c)
            && ((e.Rule? && e.tag == tag && c.phase.Waiting?) || (e.Retry? && e.tag == tag && c.phase.Stepping?) ==>
                  StepsLeft(d[tag]) < StepsLeft(c))
  {
    assert Descending(s.chains[tag]) && Stepped(s, s.chains[tag]);
  }

  /** The level a profile would use never rises either. */
  lemma LevelNeverRises(c: Caps, before: Caps)
    requires NoHigher(c, before)
    ensures 0 <= StackLevelFor(c, TX_PROFILE_STACK_LEVEL) <= StackLevelFor(before, TX_PROFILE_STACK_LEVEL) <= TX_PROFILE_STACK_LEVEL
  {
  }

  function Levels(s: State, tag: nat): seq<int> {
    if tag in s.chains then s.chains[tag].levels else []
  }

  /** A profile is sent only by an assignment or a retry, at the highest level its charge point is not
      known to refuse, and never to one known not to take limits in ampere. */
  lemma SentExactly(s: State, e: Event, tag: nat)
    ensures var r := Step(s, e);
            Levels(r, tag) != Levels(s, tag) ==>
              && tag in r.chains && (e.Assign? || e.Retry?)
              && var c := Entry(s.entries, r.chains[tag].chargePoint);
                 (c.known ==> c.allowsCurrent) && Levels(r, tag) == Levels(s, tag) + [StackLevelFor(c, TX_PROFILE_STACK_LEVEL)]
  {
  }

  /** The verdict on an assignment's last profile teaches a ceiling exactly when it is a refusal of a level
      above zero, a retry is left, and the ceiling is not that low already: one below that level. Any other
      verdict ends the assignment and teaches nothing. */
  lemma LearnsExactly(s: State, tag: nat, verdict: Verdict)
    requires tag in s.chains && s.chains[tag].phase.Waiting? && s.chains[tag].levels != []
    ensures var r, c := Step(s, Rule(tag, verdict)), s.chains[tag];
            var level, entry := c.levels[|c.levels| - 1], Entry(s.entries, c.chargePoint);
            if (verdict == Rejected || verdict == NotSupported) && level > 0 && c.retriesLeft > 0
               && (entry.stackLevelKnown ==> entry.maxStackLevel >= level)
            then
              && r.entries == s.entries[c.chargePoint := entry.(stackLevelKnown := true, maxStackLevel := level - 1)]
              && r.chains[tag] == c.(phase := Stepping)
            else r.entries == s.entries && r.chains[tag] == c.(phase := Over)
  {
  }

  /** It is the highest level up to ten that the charge point is not known to refuse, and zero when that
      would be a negative one. */
  lemma LevelIsHighest(c: Caps, other: int)
    ensures var level := StackLevelFor(c, TX_PROFILE_STACK_LEVEL);
            && 0 <= level <= 10 && (c.stackLevelKnown && level > 0 ==> level <= c.maxStackLevel)
            && (other <= 10 && (c.stackLevelKnown ==> other <= c.maxStackLevel) ==> other <= level)
  {
  }
}
