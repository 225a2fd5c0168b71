/** Body/path_probe.go: when discovery may probe. Durations and instants are exact integers,
    in nanoseconds. */
module ProbeScheduler {
  import opened Common

  const SECOND := 1_000_000_000

  datatype Config = Config(
    minInterval: int,
    maxBackoff: int,
    maxAttempts: int,
    maxAttemptsCooldown: int,
    initialBackoff: int)

  datatype State = State(
    lastProbe: Option<int>,
    inFlight: bool,
    backoff: int,
    attempts: int,
    exhaustedAt: Option<int>)

  /** NewProbeScheduler fills in what the configuration leaves out. */
  function Defaults(cfg: Config): (filled: Config)
    ensures Usable(filled)
    ensures filled.minInterval == if cfg.minInterval > 0 then cfg.minInterval else 30 * SECOND
    ensures filled.maxBackoff == if cfg.maxBackoff > 0 then cfg.maxBackoff else 600 * SECOND
    ensures filled.initialBackoff == if cfg.initialBackoff > 0 then cfg.initialBackoff else 5 * SECOND
    ensures filled.maxAttempts == cfg.maxAttempts && filled.maxAttemptsCooldown == cfg.maxAttemptsCooldown
  {
    cfg.(minInterval := if cfg.minInterval <= 0 then 30 * SECOND else cfg.minInterval,
         maxBackoff := if cfg.maxBackoff <= 0 then 600 * SECOND else cfg.maxBackoff,
         initialBackoff := if cfg.initialBackoff <= 0 then 5 * SECOND else cfg.initialBackoff)
  }

  predicate Usable(cfg: Config) {
    cfg.minInterval > 0 && cfg.maxBackoff > 0 && cfg.initialBackoff > 0
  }

  function Fresh(cfg: Config): State {
    State(None, false, cfg.initialBackoff, 0, None)
  }

  function Cooldown(cfg: Config): int {
    if cfg.maxAttemptsCooldown > 0 then cfg.maxAttemptsCooldown else 10 * cfg.maxBackoff
  }

  predicate Exhausted(cfg: Config, s: State) {
    cfg.maxAttempts > 0 && s.attempts >= cfg.maxAttempts
  }

  // ----- the operations

  predicate Grants(cfg: Config, s: State, now: int) {
    && !s.inFlight
    && (s.lastProbe.Some? ==> now - s.lastProbe.value >= cfg.minInterval && now - s.lastProbe.value >= s.backoff)
    && (Exhausted(cfg, s) ==> s.exhaustedAt.Some? && now - s.exhaustedAt.value >= Cooldown(cfg))
  }

  function Acquire(cfg: Config, s: State, now: int): State {
    if !Grants(cfg, s, now) then s
    else if Exhausted(cfg, s) then State(Some(now), true, cfg.initialBackoff, 0, None)
    else s.(lastProbe := Some(now), inFlight := true)
  }

  function Max(a: int, b: int): int { if a < b then b else a }
  function Min(a: int, b: int): int { if a < b then a else b }

  function Wait(cfg: Config, s: State, now: int): int {
    if s.inFlight then Max(cfg.minInterval, s.backoff)
    else if s.lastProbe.None? then 0
    else
      var elapsed := now - s.lastProbe.value;
      var interval := if elapsed < cfg.minInterval then cfg.minInterval - elapsed else 0;
      var backoff := if elapsed < s.backoff then s.backoff - elapsed else 0;
      var cooldown := if Exhausted(cfg, s) && s.exhaustedAt.Some?
                      then Max(Cooldown(cfg) - (now - s.exhaustedAt.value), 0) else 0;
      Max(Max(interval, backoff), cooldown)
  }

  function Power(n: nat): (p: int)
    ensures p >= 1
  {
    if n == 0 then 1 else 2 * Power(n - 1)
  }

  /** The wait earned by the k-th failure in a row. */
  function BackoffAfter(cfg: Config, k: int): int
    requires k >= 1
  {
    Min(cfg.initialBackoff * Power(k - 1), cfg.maxBackoff)
  }

  /** The result of a probe; the clock is read for the release and again when the attempts
      run out. */
  function Result(cfg: Config, s: State, reachable: bool, released: int, exhausted: int): State
    requires s.attempts >= 0
  {
    if reachable then State(Some(released), false, 0, 0, None)
    else
      var failed := s.(lastProbe := Some(released), inFlight := false, attempts := s.attempts + 1);
      if Exhausted(cfg, failed)
      then failed.(exhaustedAt := if s.exhaustedAt.None? then Some(exhausted) else s.exhaustedAt)
      else failed.(backoff := BackoffAfter(cfg, failed.attempts))
  }

  function Cancelled(now: int): State {
    State(Some(now), false, 0, 0, None)
  }

  function Reset(cfg: Config, s: State): State {
    s.(backoff := cfg.initialBackoff, attempts := 0, exhaustedAt := None)
  }

  // ----- runs

  datatype Event =
    | Ask(now: int)
    | Report(reachable: bool, released: int, exhausted: int)
    | Cancel(now: int)
    | ResetBackoff

  predicate Sane(cfg: Config, s: State) {
    && s.attempts >= 0
    && (s.lastProbe.None? ==> s.attempts == 0)
    && (Exhausted(cfg, s) <==> s.exhaustedAt.Some?)
  }

  function Next(cfg: Config, s: State, ev: Event): State
    requires s.attempts >= 0
  {
    match ev
    case Ask(now) => Acquire(cfg, s, now)
    case Report(reachable, released, exhausted) => Result(cfg, s, reachable, released, exhausted)
    case Cancel(now) => Cancelled(now)
    case ResetBackoff => Reset(cfg, s)
  }

  function Run(cfg: Config, evs: seq<Event>): (s: State)
    ensures s.attempts >= 0
  {
    if evs == [] then Fresh(cfg) else Next(cfg, Run(cfg, evs[..|evs| - 1]), evs[|evs| - 1])
  }

  lemma {:induction false} RunIsSane(cfg: Config, evs: seq<Event>)
    ensures Sane(cfg, Run(cfg, evs))
  {
    if evs != [] {
      RunIsSane(cfg, evs[..|evs| - 1]);
    }
  }

  /** The advice is exact: in every reachable state with no probe in flight, asking again
      after any delay succeeds exactly when the delay is at least the advised one. */
  lemma {:induction false} WaitIsExact(cfg: Config, evs: seq<Event>, now: int, delay: nat)
    requires !Run(cfg, evs).inFlight
    ensures Grants(cfg, Run(cfg, evs), now + delay) <==> delay >= Wait(cfg, Run(cfg, evs), now)
  {
    RunIsSane(cfg, evs);
  }

  // ----- the rate of probes

  /** The instants at which slots were granted. */
  function Slots(cfg: Config, evs: seq<Event>): seq<int> {
    if evs == [] then []
    else
      var init, last := evs[..|evs| - 1], evs[|evs| - 1];
      Slots(cfg, init) + if last.Ask? && Grants(cfg, Run(cfg, init), last.now) then [last.now] else []
  }

  function Clock(ev: Event): Option<int> {
    match ev
    case Ask(now) => Some(now)
    case Report(_, released, _) => Some(released)
    case Cancel(now) => Some(now)
    case ResetBackoff => None
  }

  /** The clock readings never go back, and none is after `now`. */
  predicate Monotone(evs: seq<Event>, now: int) {
    evs == [] ||
    var last := evs[|evs| - 1];
    Monotone(evs[..|evs| - 1], match Clock(last) case Some(t) => Min(t, now) case None => now)
    && (Clock(last).Some? ==> Clock(last).value <= now)
  }

  predicate Spaced(slots: seq<int>, interval: int) {
    forall i :: 0 <= i < |slots| - 1 ==> slots[i] + interval <= slots[i + 1]
  }

  /** The last slot is no later than the last probe time, which is not in the future. */
  lemma {:induction false} SlotsBeforeLastProbe(cfg: Config, evs: seq<Event>, now: int)
    requires Monotone(evs, now)
    ensures var s, slots := Run(cfg, evs), Slots(cfg, evs);
            && (s.lastProbe.Some? ==> s.lastProbe.value <= now)
            && (slots != [] ==> s.lastProbe.Some? && slots[|slots| - 1] <= s.lastProbe.value)
            && Spaced(slots, cfg.minInterval)
  {
    if evs != [] {
      var init, last := evs[..|evs| - 1], evs[|evs| - 1];
      SlotsBeforeLastProbe(cfg, init, match Clock(last) case Some(t) => Min(t, now) case None => now);
    }
  }

  /** With a clock that does not go back, any stretch of k + 1 slots lasts at least k
      minimum intervals. */
  lemma {:induction false} SlotsAreSpaced(cfg: Config, evs: seq<Event>, now: int, i: nat, k: nat)
    requires Monotone(evs, now) && i + k < |Slots(cfg, evs)|
    ensures k * cfg.minInterval <= Slots(cfg, evs)[i + k] - Slots(cfg, evs)[i]
    decreases k
  {
    SlotsBeforeLastProbe(cfg, evs, now);
    if k > 0 {
      SlotsAreSpaced(cfg, evs, now, i, k - 1);
      assert Slots(cfg, evs)[i + k - 1] + cfg.minInterval <= Slots(cfg, evs)[i + k - 1 + 1];
      assert k * cfg.minInterval == (k - 1) * cfg.minInterval + cfg.minInterval;
    }
  }

  // ----- the backoff

  predicate IsFailure(ev: Event) {
    ev.Report? && !ev.reachable
  }

  predicate Clears(ev: Event) {
    ev.Cancel? || ev.ResetBackoff? || (ev.Report? && ev.reachable)
  }

  /** The last event is granted after a cooldown, which starts the count again. */
  predicate Restarts(cfg: Config, evs: seq<Event>)
    requires evs != []
  {
    var init, last := evs[..|evs| - 1], evs[|evs| - 1];
    last.Ask? && Exhausted(cfg, Run(cfg, init)) && Grants(cfg, Run(cfg, init), last.now)
  }

  /** A stretch of asking and failing. */
  predicate Streak(evs: seq<Event>) {
    forall ev :: ev in evs ==> ev.Ask? || IsFailure(ev)
  }

  function Failures(evs: seq<Event>): nat {
    if evs == [] then 0 else Failures(evs[..|evs| - 1]) + if IsFailure(evs[|evs| - 1]) then 1 else 0
  }

  /** After k failures in a row, counted from a start, a success, a cancellation, a reset or
      the slot granted after a cooldown, and short of exhaustion, the backoff has doubled k - 1 times up to its cap. */
  lemma {:induction false} BackoffDoubles(cfg: Config, before: seq<Event>, streak: seq<Event>)
    requires before == [] || Clears(before[|before| - 1]) || Restarts(cfg, before)
    requires Streak(streak) && (cfg.maxAttempts > 0 ==> Failures(streak) < cfg.maxAttempts)
    ensures var s := Run(cfg, before + streak);
            && s.attempts == Failures(streak)
            && (Failures(streak) > 0 ==> s.backoff == BackoffAfter(cfg, Failures(streak)))
  {
    if streak == [] {
      assert before + streak == before;
    } else {
      var init, last := streak[..|streak| - 1], streak[|streak| - 1];
      assert last in streak && forall ev :: ev in init ==> ev in streak;
      BackoffDoubles(cfg, before, init);
      assert (before + streak)[..|before + streak| - 1] == before + init;
    }
  }

  /** The first failure earns the initial backoff and each further one twice the last, up to
      the cap. */
  lemma BackoffAfterDoubles(cfg: Config, k: int)
    requires Usable(cfg) && k >= 1
    ensures BackoffAfter(cfg, 1) == (if cfg.initialBackoff < cfg.maxBackoff then cfg.initialBackoff else cfg.maxBackoff)
    ensures var twice := 2 * BackoffAfter(cfg, k);
            BackoffAfter(cfg, k + 1) == if twice < cfg.maxBackoff then twice else cfg.maxBackoff
  {
    assert Power(k) == 2 * Power(k - 1);
    assert cfg.initialBackoff * Power(k) == 2 * (cfg.initialBackoff * Power(k - 1));
    assert cfg.initialBackoff * Power(0) == cfg.initialBackoff;
  }

  /** After a success or a cancellation at time t nothing but the minimum interval is waited
      for. */
  lemma SlotAfterSuccessExactlyWhen(cfg: Config, evs: seq<Event>, t: int, now: int)
    requires Usable(cfg) && evs != []
    requires evs[|evs| - 1] == Cancel(t) || exists x :: evs[|evs| - 1] == Report(true, t, x)
    ensures Grants(cfg, Run(cfg, evs), now) <==> now >= t + cfg.minInterval
  {
  }

  /** After a reset with no probe in flight, the initial backoff counts from the last probe;
      before any probe there is nothing to wait for. */
  lemma SlotAfterResetExactlyWhen(cfg: Config, evs: seq<Event>, now: int)
    requires Usable(cfg) && !Run(cfg, evs).inFlight
    ensures var last := Run(cfg, evs).lastProbe;
            Grants(cfg, Run(cfg, evs + [ResetBackoff]), now) <==>
              (last.Some? ==> now >= last.value + cfg.minInterval && now >= last.value + cfg.initialBackoff)
  {
    assert (evs + [ResetBackoff])[..|evs|] == evs;
  }

  /** Out of attempts, a slot is granted exactly when interval, backoff and cooldown are over;
      the cooldown is ten times the largest backoff unless configured. */
  lemma SlotAfterExhaustionExactlyWhen(cfg: Config, evs: seq<Event>, now: int)
    requires !Run(cfg, evs).inFlight && cfg.maxAttempts > 0 && Run(cfg, evs).attempts >= cfg.maxAttempts
    ensures var s := Run(cfg, evs);
            var pause := if cfg.maxAttemptsCooldown > 0 then cfg.maxAttemptsCooldown else 10 * cfg.maxBackoff;
            && s.lastProbe.Some? && s.exhaustedAt.Some?
            && (Grants(cfg, s, now) <==>
                  now >= s.lastProbe.value + cfg.minInterval && now >= s.lastProbe.value + s.backoff && now >= s.exhaustedAt.value + pause)
  {
    RunIsSane(cfg, evs);
  }

  /** A granted slot is the only one until its result or cancellation is recorded. */
  lemma {:induction false} OneProbeAtATime(cfg: Config, evs: seq<Event>, slot: int, more: seq<Event>, now: int)
    requires Grants(cfg, Run(cfg, evs), slot) && forall ev :: ev in more ==> ev.Ask? || ev.ResetBackoff?
    ensures Run(cfg, evs + [Ask(slot)] + more).inFlight && !Grants(cfg, Run(cfg, evs + [Ask(slot)] + more), now)
  {
    var taken := evs + [Ask(slot)];
    if more == [] {
      assert taken + more == taken && taken[..|evs|] == evs;
    } else {
      var init, last := more[..|more| - 1], more[|more| - 1];
      assert last in more && forall ev :: ev in init ==> ev in more;
      OneProbeAtATime(cfg, evs, slot, init, now);
      assert (taken + more)[..|taken + more| - 1] == taken + init;
    }
  }

  /** The failure that exhausts the attempts pauses discovery: from then on, as long as the
      scheduler is only asked, no slot is granted before the cooldown is over. */
  lemma {:induction false} ExhaustionPauses(cfg: Config, evs: seq<Event>, asks: seq<Event>, now: int)
    requires Exhausted(cfg, Run(cfg, evs)) && Run(cfg, evs).exhaustedAt.Some?
    requires forall ev :: ev in asks ==> ev.Ask? && ev.now < Run(cfg, evs).exhaustedAt.value + Cooldown(cfg)
    ensures Run(cfg, evs + asks) == Run(cfg, evs)
    ensures now < Run(cfg, evs).exhaustedAt.value + Cooldown(cfg) ==> !Grants(cfg, Run(cfg, evs + asks), now)
  {
    if asks == [] {
      assert evs + asks == evs;
    } else {
      var init, last := asks[..|asks| - 1], asks[|asks| - 1];
      assert last in asks && forall ev :: ev in init ==> ev in asks;
      ExhaustionPauses(cfg, evs, init, now);
      assert (evs + asks)[..|evs + asks| - 1] == evs + init;
    }
  }

  // ----- the code

  class Scheduler {
    const config: Config
    var lastProbe: Option<int>
    var inFlight: bool
    var backoff: int
    var attempts: int
    var exhaustedAt: Option<int>

    ghost function Snapshot(): State
      reads this
    {
      State(lastProbe, inFlight, backoff, attempts, exhaustedAt)
    }

    constructor (cfg: Config)
      ensures config == Defaults(cfg) && Snapshot() == Fresh(config)
    {
      config := Defaults(cfg);
      lastProbe, inFlight, attempts, exhaustedAt := None, false, 0, None;
      backoff := Defaults(cfg).initialBackoff;
    }

    method TryAcquireSlot(now: int) returns (granted: bool)
      modifies this
      ensures granted == Grants(config, old(Snapshot()), now) && Snapshot() == Acquire(config, old(Snapshot()), now)
    {
      if inFlight { return false; }
      if lastProbe.Some? && now - lastProbe.value < config.minInterval { return false; }
      if lastProbe.Some? && now - lastProbe.value < backoff { return false; }
      if config.maxAttempts > 0 && attempts >= config.maxAttempts {
        if exhaustedAt.None? || now - exhaustedAt.value < Cooldown(config) { return false; }
        attempts := 0;
        backoff := config.initialBackoff;
        exhaustedAt := None;
      }
      lastProbe := Some(now);
      inFlight := true;
      return true;
    }

    method BackoffDuration(now: int) returns (wait: int)
      ensures wait == Wait(config, Snapshot(), now)
    {
      if inFlight { return Max(config.minInterval, backoff); }
      if lastProbe.None? { return 0; }
      var elapsed := now - lastProbe.value;
      var remainingMinInterval := 0;
      if elapsed < config.minInterval { remainingMinInterval := config.minInterval - elapsed; }
      var remainingBackoff := 0;
      if elapsed < backoff { remainingBackoff := backoff - elapsed; }
      wait := remainingMinInterval;
      if remainingBackoff > wait { wait := remainingBackoff; }
      if config.maxAttempts > 0 && attempts >= config.maxAttempts && exhaustedAt.Some? {
        var remainingExhausted := Cooldown(config) - (now - exhaustedAt.value);
        if remainingExhausted < 0 { remainingExhausted := 0; }
        if remainingExhausted > wait { wait := remainingExhausted; }
      }
    }

    method RecordResult(reachable: bool, released: int, exhausted: int)
      requires attempts >= 0
      modifies this
      ensures Snapshot() == Result(config, old(Snapshot()), reachable, released, exhausted)
    {
      lastProbe := Some(released);
      inFlight := false;
      if reachable {
        backoff := 0;
        attempts := 0;
        exhaustedAt := None;
      } else {
        attempts := attempts + 1;
        if config.maxAttempts > 0 && attempts >= config.maxAttempts {
          if exhaustedAt.None? { exhaustedAt := Some(exhausted); }
        } else {
          backoff := Min(config.initialBackoff * Power(attempts - 1), config.maxBackoff);
        }
      }
    }

    method RecordCancelled(now: int)
      modifies this
      ensures Snapshot() == Cancelled(now)
    {
      backoff := 0;
      attempts := 0;
      inFlight := false;
      exhaustedAt := None;
      lastProbe := Some(now);
    }

    method ClearBackoff()
      modifies `backoff, `attempts, `exhaustedAt
      ensures Snapshot() == Reset(config, old(Snapshot()))
    {
      backoff := config.initialBackoff;
      attempts := 0;
      exhaustedAt := None;
    }
  }
}
