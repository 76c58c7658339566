/**
 The circuit breaker of src/utils/circuit_breaker.py and the storage operations that drive it
 (src/services/storage_service.py). Every method runs under the breaker's lock, so each is one step;
 the clock is a parameter and is not assumed to be monotone.
 */
module CircuitBreaker {
  import opened Text

  datatype CircuitState = Closed | Open | HalfOpen

  datatype Config = Config(failureThreshold: int, successThreshold: int, timeout: real, halfOpenMaxCalls: int)

  datatype Breaker = Breaker(
    state: CircuitState,
    failures: nat,
    successes: nat,
    lastFailure: Option<real>,
    halfOpenCalls: nat)

  function Initial(): Breaker {
    Breaker(Closed, 0, 0, None, 0)
  }

  function Max0(x: int): nat {
    if x < 0 then 0 else x
  }

  // ---------------------------------------------------------------------------
  // One call of each method
  // ---------------------------------------------------------------------------

  function ToOpen(b: Breaker): Breaker {
    b.(state := Open, successes := 0, halfOpenCalls := 0)
  }

  function ToHalfOpen(b: Breaker): Breaker {
    b.(state := HalfOpen, successes := 0, failures := 0, halfOpenCalls := 0)
  }

  /** The lazy timeout: an open circuit becomes half-open when somebody looks late enough. */
  function Refreshed(cfg: Config, b: Breaker, now: real): Breaker {
    if b.state == Open && b.lastFailure.Some? && now - b.lastFailure.value >= cfg.timeout
    then ToHalfOpen(b) else b
  }

  predicate HasRoom(cfg: Config, b: Breaker) {
    b.state == Closed || (b.state == HalfOpen && b.halfOpenCalls < cfg.halfOpenMaxCalls)
  }

  predicate Admits(cfg: Config, b: Breaker, now: real) {
    HasRoom(cfg, Refreshed(cfg, b, now))
  }

  function Checked(cfg: Config, b: Breaker, now: real): Breaker {
    var r := Refreshed(cfg, b, now);
    if r.state == HalfOpen && HasRoom(cfg, r) then r.(halfOpenCalls := r.halfOpenCalls + 1) else r
  }

  function Succeeded(cfg: Config, b: Breaker): Breaker {
    match b.state
    case HalfOpen =>
      if b.successes + 1 >= cfg.successThreshold then Initial()
      else b.(successes := b.successes + 1, halfOpenCalls := Max0(b.halfOpenCalls - 1))
    case Closed => b.(failures := 0)
    case Open => b
  }

  function Failed(cfg: Config, b: Breaker, now: real): Breaker {
    var c := b.(failures := b.failures + 1, lastFailure := Some(now));
    if b.state == HalfOpen || (b.state == Closed && c.failures >= cfg.failureThreshold) then ToOpen(c) else c
  }

  class CircuitBreaker {
    const cfg: Config
    var state: CircuitState
    var failureCount: nat
    var successCount: nat
    var lastFailureTime: Option<real>
    var halfOpenCalls: nat

    function View(): Breaker
      reads this
    {
      Breaker(state, failureCount, successCount, lastFailureTime, halfOpenCalls)
    }

    constructor (config: Config)
      ensures cfg == config && View() == Initial()
    {
      cfg := config;
      state, failureCount, successCount, lastFailureTime, halfOpenCalls := Closed, 0, 0, None, 0;
    }

    method TransitionToOpen()
      modifies this
      ensures View() == ToOpen(old(View()))
    {
      state := Open;
      successCount := 0;
      halfOpenCalls := 0;
    }

    method TransitionToHalfOpen()
      modifies this
      ensures View() == ToHalfOpen(old(View()))
    {
      state := HalfOpen;
      successCount := 0;
      failureCount := 0;
      halfOpenCalls := 0;
    }

    method TransitionToClosed()
      modifies this
      ensures View() == Initial()
    {
      state := Closed;
      failureCount := 0;
      successCount := 0;
      lastFailureTime := None;
      halfOpenCalls := 0;
    }

    method UpdateState(now: real)
      modifies this
      ensures View() == Refreshed(cfg, old(View()), now)
    {
      if state == Open && lastFailureTime.Some? {
        var elapsed := now - lastFailureTime.value;
        if elapsed >= cfg.timeout {
          TransitionToHalfOpen();
        }
      }
    }

    method GetState(now: real) returns (s: CircuitState)
      modifies this
      ensures View() == Refreshed(cfg, old(View()), now)
      ensures s == state
    {
      UpdateState(now);
      s := state;
    }

    /** `false` stands for the exception. */
    method CheckState(now: real) returns (admitted: bool)
      modifies this
      ensures admitted == Admits(cfg, old(View()), now)
      ensures View() == Checked(cfg, old(View()), now)
    {
      UpdateState(now);
      if state == Open {
        return false;
      }
      if state == HalfOpen {
        if halfOpenCalls >= cfg.halfOpenMaxCalls {
          return false;
        }
        halfOpenCalls := halfOpenCalls + 1;
      }
      admitted := true;
    }

    method RecordSuccess()
      modifies this
      ensures View() == Succeeded(cfg, old(View()))
    {
      if state == HalfOpen {
        successCount := successCount + 1;
        halfOpenCalls := Max0(halfOpenCalls - 1);
        if successCount >= cfg.successThreshold {
          TransitionToClosed();
        }
      } else if state == Closed {
        if failureCount > 0 {
          failureCount := 0;
        }
      }
    }

    method RecordFailure(now: real)
      modifies this
      ensures View() == Failed(cfg, old(View()), now)
    {
      failureCount := failureCount + 1;
      lastFailureTime := Some(now);
      if state == HalfOpen {
        halfOpenCalls := Max0(halfOpenCalls - 1);
        TransitionToOpen();
      } else if state == Closed {
        if failureCount >= cfg.failureThreshold {
          TransitionToOpen();
        }
      }
    }

    method Reset()
      modifies this
      ensures View() == Initial()
    {
      TransitionToClosed();
    }
  }

  // ---------------------------------------------------------------------------
  // The counters as functions of the event history
  // ---------------------------------------------------------------------------

  /** `Query` is any reading of the state (`state`, `is_open`, `get_stats`). */
  datatype Event = Query(now: real) | Check(now: real) | Success | Failure(now: real) | Reset

  function Next(cfg: Config, b: Breaker, e: Event): Breaker {
    match e
    case Query(now) => Refreshed(cfg, b, now)
    case Check(now) => Checked(cfg, b, now)
    case Success => Succeeded(cfg, b)
    case Failure(now) => Failed(cfg, b, now)
    case Reset => Initial()
  }

  function Run(cfg: Config, h: seq<Event>): Breaker {
    if h == [] then Initial() else Next(cfg, Run(cfg, h[..|h| - 1]), h[|h| - 1])
  }

  /** The length of the run of failures since the last success or reset. */
  function FailureRun(h: seq<Event>): nat {
    if h == [] then 0
    else
      var prior := FailureRun(h[..|h| - 1]);
      match h[|h| - 1]
      case Failure(_) => prior + 1
      case Success => 0
      case Reset => 0
      case _ => prior
  }

  function LatestFailure(h: seq<Event>): Option<real> {
    if h == [] then None
    else if h[|h| - 1].Failure? then Some(h[|h| - 1].now)
    else LatestFailure(h[..|h| - 1])
  }

  predicate Due(cfg: Config, failure: Option<real>, now: real) {
    failure.Some? && now - failure.value >= cfg.timeout
  }

  /** Somebody looked at the breaker `timeout` or more after the latest failure, with no reset since. */
  predicate ProbingBegun(cfg: Config, h: seq<Event>) {
    h != [] &&
    var before := h[..|h| - 1];
    match h[|h| - 1]
    case Query(now) => ProbingBegun(cfg, before) || Due(cfg, LatestFailure(before), now)
    case Check(now) => ProbingBegun(cfg, before) || Due(cfg, LatestFailure(before), now)
    case Success => ProbingBegun(cfg, before)
    case _ => false
  }

  /** The successes reported after that look. */
  function EpisodeSuccesses(cfg: Config, h: seq<Event>): nat {
    if h == [] then 0
    else
      var before := h[..|h| - 1];
      match h[|h| - 1]
      case Success => if ProbingBegun(cfg, before) then EpisodeSuccesses(cfg, before) + 1 else 0
      case Failure(_) => 0
      case Reset => 0
      case _ => EpisodeSuccesses(cfg, before)
  }

  predicate RefinesHistory(cfg: Config, h: seq<Event>, b: Breaker) {
    match b.state
    case Closed =>
      b.failures == FailureRun(h) && (b.failures == 0 || b.failures < cfg.failureThreshold)
      && b.successes == 0 && b.halfOpenCalls == 0
    case HalfOpen =>
      b.failures == 0 && ProbingBegun(cfg, h) && b.successes == EpisodeSuccesses(cfg, h)
      && (b.successes == 0 || b.successes < cfg.successThreshold)
      && b.halfOpenCalls <= Max0(cfg.halfOpenMaxCalls)
      && b.lastFailure.Some? && b.lastFailure == LatestFailure(h)
    case Open =>
      b.lastFailure.Some? && b.lastFailure == LatestFailure(h) && !ProbingBegun(cfg, h)
      && EpisodeSuccesses(cfg, h) == 0 && b.successes == 0 && b.halfOpenCalls == 0
  }

  /** In every run every counter is what the history says it is. */
  lemma {:induction false} CountersRefineHistory(cfg: Config, h: seq<Event>)
    ensures RefinesHistory(cfg, h, Run(cfg, h))
  {
    if h != [] {
      CountersRefineHistory(cfg, h[..|h| - 1]);
    }
  }

  /**
   A call is admitted from an open circuit exactly when the timeout has passed since the latest
   recorded failure and probes are allowed at all.
   */
  lemma AdmittedFromOpen(cfg: Config, h: seq<Event>, now: real)
    requires Run(cfg, h).state == Open
    ensures Admits(cfg, Run(cfg, h), now) <==> Due(cfg, LatestFailure(h), now) && cfg.halfOpenMaxCalls >= 1
  {
    CountersRefineHistory(cfg, h);
  }

  /** Nobody resets, and every look at the breaker comes within the timeout of the latest failure before it. */
  predicate AllEarly(cfg: Config, h: seq<Event>, more: seq<Event>) {
    more == [] ||
    (AllEarly(cfg, h, more[..|more| - 1])
     && match more[|more| - 1]
        case Query(now) => !Due(cfg, LatestFailure(h + more[..|more| - 1]), now)
        case Check(now) => !Due(cfg, LatestFailure(h + more[..|more| - 1]), now)
        case Reset => false
        case _ => true)
  }

  /** Once open, the circuit refuses every call until the timeout has passed since the latest failure. */
  lemma {:induction false} StaysOpen(cfg: Config, h: seq<Event>, more: seq<Event>)
    requires Run(cfg, h).state == Open && AllEarly(cfg, h, more)
    ensures Run(cfg, h + more).state == Open
    ensures forall now | !Due(cfg, LatestFailure(h + more), now) :: !Admits(cfg, Run(cfg, h + more), now)
    decreases |more|
  {
    if more == [] {
      assert h + more == h;
    } else {
      var before := more[..|more| - 1];
      StaysOpen(cfg, h, before);
      CountersRefineHistory(cfg, h + before);
      assert (h + more)[..|h + more| - 1] == h + before;
    }
    CountersRefineHistory(cfg, h + more);
  }

  predicate AllFailures(es: seq<Event>) {
    forall i :: 0 <= i < |es| ==> es[i].Failure?
  }

  /** From any closed circuit, `failureThreshold` failures without a success between them open it. */
  lemma {:induction false} ThresholdOpens(cfg: Config, h: seq<Event>, more: seq<Event>)
    requires Run(cfg, h).state == Closed && AllFailures(more)
    requires FailureRun(h) + |more| >= cfg.failureThreshold && more != []
    ensures Run(cfg, h + more).state == Open
    decreases |more|
  {
    CountersRefineHistory(cfg, h);
    var h1 := h + more[..1];
    assert h1[..|h1| - 1] == h;
    assert h1 + more[1..] == h + more;
    if Run(cfg, h1).state == Open {
      StayOpenOnFailures(cfg, h1, more[1..]);
    } else {
      ThresholdOpens(cfg, h1, more[1..]);
    }
  }

  lemma {:induction false} StayOpenOnFailures(cfg: Config, h: seq<Event>, more: seq<Event>)
    requires Run(cfg, h).state == Open && AllFailures(more)
    ensures Run(cfg, h + more).state == Open
    decreases |more|
  {
    if more == [] {
      assert h + more == h;
    } else {
      var before := more[..|more| - 1];
      assert (h + more)[..|h + more| - 1] == h + before;
      StayOpenOnFailures(cfg, h, before);
    }
  }

  // ---------------------------------------------------------------------------
  // Half-open probes: who holds a slot, in every run of any number of callers
  // ---------------------------------------------------------------------------

  /**
   `inflight` maps each admitted call that has not reported to the episode it was admitted in: the number
   of the half-open episode, or 0 for a call admitted while closed. `stale` counts the reports this episode
   received from calls that are not its own probes.
   */
  datatype Probes = Probes(breaker: Breaker, episode: nat, inflight: map<nat, nat>, stale: nat)

  datatype Step =
    | Look(now: real)
    | Arrive(call: nat, now: real)
    | Report(call: nat, ok: bool, now: real)
    | Again(ok: bool, now: real)
    | Clear

  function Told(cfg: Config, b: Breaker, ok: bool, now: real): Breaker {
    if ok then Succeeded(cfg, b) else Failed(cfg, b, now)
  }

  /** The episode after a look: a new one begins when the look made the circuit half-open. */
  function Looked(cfg: Config, p: Probes, now: real): Probes {
    var b := Refreshed(cfg, p.breaker, now);
    if b.state == HalfOpen && p.breaker.state != HalfOpen
    then p.(breaker := b, episode := p.episode + 1, stale := 0)
    else p.(breaker := b)
  }

  /** A step that makes no sense where it stands (a call arriving twice, a report of no call) changes nothing. */
  function Move(cfg: Config, p: Probes, s: Step): Probes {
    match s
    case Look(now) => Looked(cfg, p, now)
    case Arrive(call, now) =>
      var q := Looked(cfg, p, now);
      if call in p.inflight then p
      else if Admits(cfg, p.breaker, now)
      then q.(breaker := Checked(cfg, p.breaker, now),
              inflight := q.inflight[call := if q.breaker.state == HalfOpen then q.episode else 0])
      else q
    case Report(call, ok, now) =>
      if call !in p.inflight then p
      else
        var own := p.breaker.state == HalfOpen && p.inflight[call] == p.episode;
        Probes(Told(cfg, p.breaker, ok, now), p.episode, p.inflight - {call}, if own then p.stale else p.stale + 1)
    case Again(ok, now) =>
      p.(breaker := Told(cfg, p.breaker, ok, now), stale := p.stale + 1)
    case Clear => p.(breaker := Initial())
  }

  function Moves(cfg: Config, p: Probes, steps: seq<Step>): Probes
    decreases |steps|
  {
    if steps == [] then p else Moves(cfg, Move(cfg, p, steps[0]), steps[1..])
  }

  const Start := Probes(Initial(), 0, map[], 0)

  /** The unreported probes of the current episode. */
  function Unreported(p: Probes): set<nat> {
    set call | call in p.inflight && p.inflight[call] == p.episode
  }

  ghost predicate SlotsAccounted(cfg: Config, p: Probes) {
    (forall call | call in p.inflight :: p.inflight[call] <= p.episode)
    && (p.breaker.state == HalfOpen ==>
          p.episode > 0
          && |Unreported(p)| <= p.breaker.halfOpenCalls + p.stale
          && p.breaker.halfOpenCalls <= Max0(cfg.halfOpenMaxCalls)
          && (p.stale == 0 ==> p.breaker.halfOpenCalls == |Unreported(p)|))
  }

  lemma ArriveKeeps(cfg: Config, p: Probes, call: nat, now: real)
    requires SlotsAccounted(cfg, p) && call !in p.inflight
    ensures SlotsAccounted(cfg, Move(cfg, p, Arrive(call, now)))
  {
    var q := Looked(cfg, p, now);
    LookKeeps(cfg, p, now);
    var r := Move(cfg, p, Arrive(call, now));
    if r.inflight != q.inflight && r.breaker.state == HalfOpen {
      assert Unreported(r) == Unreported(q) + {call};
    } else {
      assert r.breaker.state == HalfOpen ==> r == q;
    }
  }

  lemma LookKeeps(cfg: Config, p: Probes, now: real)
    requires SlotsAccounted(cfg, p)
    ensures SlotsAccounted(cfg, Looked(cfg, p, now))
  {
    var q := Looked(cfg, p, now);
    if q.breaker.state == HalfOpen && p.breaker.state != HalfOpen {
      assert Unreported(q) == {};
    } else {
      assert Unreported(q) == Unreported(p);
    }
  }

  lemma ReportKeeps(cfg: Config, p: Probes, call: nat, ok: bool, now: real)
    requires SlotsAccounted(cfg, p) && call in p.inflight
    ensures SlotsAccounted(cfg, Move(cfg, p, Report(call, ok, now)))
  {
    var q := Move(cfg, p, Report(call, ok, now));
    assert Unreported(q) == Unreported(p) - {call};
    assert call in Unreported(p) <==> p.inflight[call] == p.episode;
  }

  /**
   In every run the unreported probes of an episode never exceed the configured number plus the reports
   received in it that were not its own; with no such report the slot counter is their exact number.
   */
  lemma {:induction false} ProbesBounded(cfg: Config, steps: seq<Step>)
    ensures var p := Moves(cfg, Start, steps);
            p.breaker.state == HalfOpen ==>
              |Unreported(p)| <= Max0(cfg.halfOpenMaxCalls) + p.stale
              && (p.stale == 0 ==> p.breaker.halfOpenCalls == |Unreported(p)|)
  {
    MovesKeep(cfg, Start, steps);
  }

  lemma {:induction false} MovesKeep(cfg: Config, p: Probes, steps: seq<Step>)
    requires SlotsAccounted(cfg, p)
    ensures SlotsAccounted(cfg, Moves(cfg, p, steps))
    decreases |steps|
  {
    if steps != [] {
      match steps[0] {
        case Look(now) => LookKeeps(cfg, p, now);
        case Arrive(call, now) =>
          if call !in p.inflight {
            ArriveKeeps(cfg, p, call, now);
          }
        case Report(call, ok, now) =>
          if call in p.inflight {
            ReportKeeps(cfg, p, call, ok, now);
          }
        case _ => assert Unreported(Move(cfg, p, steps[0])) == Unreported(p);
      }
      MovesKeep(cfg, Move(cfg, p, steps[0]), steps[1..]);
    }
  }

  /**
   When every report of the episode was one of its own probes', the breaker can always move on: it admits
   the next call, or some probe still holds a slot and its report closes, opens or frees the circuit.
   */
  lemma AlwaysProgress(cfg: Config, steps: seq<Step>, now: real)
    requires var p := Moves(cfg, Start, steps);
             cfg.halfOpenMaxCalls >= 1 && p.breaker.state == HalfOpen && p.stale == 0
    ensures var p := Moves(cfg, Start, steps);
            Admits(cfg, p.breaker, now)
            || exists call :: call in p.inflight && p.inflight[call] == p.episode
                 && Admits(cfg, Move(cfg, p, Report(call, true, now)).breaker, now)
                 && Move(cfg, p, Report(call, false, now)).breaker.state == Open
  {
    var p := Moves(cfg, Start, steps);
    MovesKeep(cfg, Start, steps);
    if !Admits(cfg, p.breaker, now) {
      assert Unreported(p) != {};
      var call :| call in Unreported(p);
      assert Admits(cfg, Move(cfg, p, Report(call, true, now)).breaker, now);
      assert Move(cfg, p, Report(call, false, now)).breaker.state == Open;
    }
  }

  function Probe(cfg: Config, b: Breaker, now: real): Breaker {
    Succeeded(cfg, Checked(cfg, b, now))
  }

  function ProbeTimes(cfg: Config, b: Breaker, now: real, n: nat): Breaker
    decreases n
  {
    if n == 0 then b else ProbeTimes(cfg, Probe(cfg, b, now), now, n - 1)
  }

  /** A half-open circuit with a free slot closes after exactly as many good probes as it still needs. */
  lemma {:induction false} RecoversAfter(cfg: Config, b: Breaker, now: real, n: nat)
    requires b.state == HalfOpen && b.halfOpenCalls < cfg.halfOpenMaxCalls
    requires b.successes == 0 || b.successes < cfg.successThreshold
    requires 1 <= n <= (if cfg.successThreshold - b.successes < 1 then 1 else cfg.successThreshold - b.successes)
    ensures ProbeTimes(cfg, b, now, n).state == Closed <==> b.successes + n >= cfg.successThreshold
    decreases n
  {
    var c := Probe(cfg, b, now);
    if n == 1 {
      assert ProbeTimes(cfg, c, now, 0) == c;
    } else {
      RecoversAfter(cfg, c, now, n - 1);
    }
  }

  lemma MovesThree(cfg: Config, p: Probes, a: Step, b: Step, c: Step, rest: seq<Step>)
    ensures Moves(cfg, p, [a, b, c] + rest) == Moves(cfg, Move(cfg, Move(cfg, Move(cfg, p, a), b), c), rest)
  {
    hide Move;
    var q := Move(cfg, p, a);
    var r := Move(cfg, q, b);
    assert ([a, b, c] + rest)[1..] == [b, c] + rest;
    assert ([b, c] + rest)[1..] == [c] + rest;
    assert ([c] + rest)[1..] == rest;
    assert Moves(cfg, r, [c] + rest) == Moves(cfg, Move(cfg, r, c), rest);
    assert Moves(cfg, q, [b, c] + rest) == Moves(cfg, r, [c] + rest);
  }

  /** A late report from a call admitted before the failure lets a second probe in beside the first. */
  lemma StaleReportAdmitsMore()
    ensures exists cfg: Config, steps ::
              var p := Moves(cfg, Start, steps);
              p.breaker.state == HalfOpen && cfg.halfOpenMaxCalls == 1 && |Unreported(p)| == 2
  {
    var cfg := Config(1, 2, 60.0, 1);
    var late := [Arrive(2, 60.0), Report(1, true, 60.0), Arrive(3, 60.0)];
    var steps := [Arrive(0, 0.0), Arrive(1, 0.0), Report(0, false, 0.0)] + late;
    var tripped := Probes(Breaker(Open, 1, 0, Some(0.0), 0), 0, map[1 := 0], 1);
    hide Moves, Move;
    MovesThree(cfg, Start, Arrive(0, 0.0), Arrive(1, 0.0), Report(0, false, 0.0), late);
    TripsOverOne(cfg, tripped);
    TwoAdmitted(cfg, tripped, late);
    assert Moves(cfg, Start, steps) == Moves(cfg, tripped, late);
  }

  lemma TripsOverOne(cfg: Config, tripped: Probes)
    requires cfg == Config(1, 2, 60.0, 1)
    requires tripped == Probes(Breaker(Open, 1, 0, Some(0.0), 0), 0, map[1 := 0], 1)
    ensures tripped ==
            Move(cfg, Move(cfg, Move(cfg, Start, Arrive(0, 0.0)), Arrive(1, 0.0)), Report(0, false, 0.0))
  {
    var two := Move(cfg, Move(cfg, Start, Arrive(0, 0.0)), Arrive(1, 0.0));
    assert two.inflight == map[0 := 0, 1 := 0];
    assert map[0 := 0, 1 := 0] - {0} == map[1 := 0];
  }

  lemma TwoAdmitted(cfg: Config, tripped: Probes, late: seq<Step>)
    requires cfg == Config(1, 2, 60.0, 1)
    requires tripped == Probes(Breaker(Open, 1, 0, Some(0.0), 0), 0, map[1 := 0], 1)
    requires late == [Arrive(2, 60.0), Report(1, true, 60.0), Arrive(3, 60.0)]
    ensures var p := Moves(cfg, tripped, late); p.breaker.state == HalfOpen && |Unreported(p)| == 2
  {
    MovesThree(cfg, tripped, late[0], late[1], late[2], []);
    assert late + [] == late;
    var p := Moves(cfg, tripped, late);
    assert p.inflight == map[2 := 1, 3 := 1];
    assert Unreported(p) == {2, 3};
  }

  /** Every call reports at most once. */
  predicate Once(steps: seq<Step>) {
    forall i | 0 <= i < |steps| :: !steps[i].Again?
  }

  /** Each call in flight is a probe of the current episode. */
  predicate OnlyOwn(p: Probes) {
    forall call | call in p.inflight :: p.inflight[call] == p.episode
  }

  /** What a half-open episode `e` keeps while no report can be stale, or the next report of any kind ends it. */
  ghost predicate Within(cfg: Config, e: nat, p: Probes) {
    p.episode >= e
    && (p.breaker.state == HalfOpen && p.episode == e ==>
          |Unreported(p)| == p.breaker.halfOpenCalls <= Max0(cfg.halfOpenMaxCalls)
          && (OnlyOwn(p) || p.breaker.successes + 1 >= cfg.successThreshold))
  }

  lemma MoveWithin(cfg: Config, e: nat, p: Probes, s: Step)
    requires Within(cfg, e, p) && !s.Again?
    ensures Within(cfg, e, Move(cfg, p, s))
  {
    match s {
      case Look(now) => LookWithin(cfg, e, p, now);
      case Arrive(call, now) =>
        if call !in p.inflight {
          ArriveWithin(cfg, e, p, call, now);
        }
      case Report(call, ok, now) =>
        if call in p.inflight {
          ReportWithin(cfg, e, p, call, ok, now);
        }
      case _ =>
    }
  }

  lemma LookWithin(cfg: Config, e: nat, p: Probes, now: real)
    requires Within(cfg, e, p)
    ensures Within(cfg, e, Looked(cfg, p, now))
  {
    var q := Looked(cfg, p, now);
    assert q.episode == p.episode ==> Unreported(q) == Unreported(p);
  }

  lemma ArriveWithin(cfg: Config, e: nat, p: Probes, call: nat, now: real)
    requires Within(cfg, e, p) && call !in p.inflight
    ensures Within(cfg, e, Move(cfg, p, Arrive(call, now)))
  {
    LookWithin(cfg, e, p, now);
    var l := Looked(cfg, p, now);
    var q := Move(cfg, p, Arrive(call, now));
    if l.breaker.state == HalfOpen && HasRoom(cfg, l.breaker) {
      assert q.inflight == l.inflight[call := l.episode];
      assert Unreported(q) == Unreported(l) + {call};
    } else {
      assert q.breaker.state == HalfOpen ==> q == l;
    }
  }

  lemma ReportWithin(cfg: Config, e: nat, p: Probes, call: nat, ok: bool, now: real)
    requires Within(cfg, e, p) && call in p.inflight
    ensures Within(cfg, e, Move(cfg, p, Report(call, ok, now)))
  {
    var q := Move(cfg, p, Report(call, ok, now));
    assert Unreported(q) == Unreported(p) - {call};
    assert call in Unreported(p) <==> p.inflight[call] == p.episode;
  }

  lemma {:induction false} MovesWithin(cfg: Config, e: nat, p: Probes, steps: seq<Step>)
    requires Within(cfg, e, p) && Once(steps)
    ensures Within(cfg, e, Moves(cfg, p, steps))
    decreases |steps|
  {
    hide Within, Move;
    if steps != [] {
      MoveWithin(cfg, e, p, steps[0]);
      MovesWithin(cfg, e, Move(cfg, p, steps[0]), steps[1..]);
    }
  }

  lemma {:induction false} FreshCall(used: set<nat>) returns (call: nat)
    ensures forall other | other in used :: other < call
    decreases |used|
  {
    if used == {} {
      call := 0;
    } else {
      var one :| one in used;
      var rest := FreshCall(used - {one});
      call := if one < rest then rest else one + 1;
      assert forall other | other in used :: other == one || other in used - {one};
    }
  }

  /** A half-open breaker as it is while no stale report has come, with a free slot or none. */
  ghost predicate Exact(cfg: Config, p: Probes) {
    p.breaker.state == HalfOpen && |Unreported(p)| == p.breaker.halfOpenCalls <= cfg.halfOpenMaxCalls
  }

  lemma AdmitOne(cfg: Config, p: Probes, call: nat)
    requires p.breaker.state == HalfOpen && p.breaker.halfOpenCalls < cfg.halfOpenMaxCalls && call !in p.inflight
    ensures var q := Move(cfg, p, Arrive(call, 0.0));
            q.breaker == p.breaker.(halfOpenCalls := p.breaker.halfOpenCalls + 1) && q.episode == p.episode
            && q.inflight == p.inflight[call := p.episode] && |Unreported(q)| == |Unreported(p)| + 1
  {
    var q := Move(cfg, p, Arrive(call, 0.0));
    assert Unreported(q) == Unreported(p) + {call};
  }

  /** Calls can arrive until every slot is taken. */
  lemma {:induction false} FillSlots(cfg: Config, p: Probes) returns (steps: seq<Step>)
    requires Exact(cfg, p)
    ensures Once(steps)
    ensures var q := Moves(cfg, p, steps);
            Exact(cfg, q) && q.breaker.halfOpenCalls == cfg.halfOpenMaxCalls && q.episode == p.episode
            && q.breaker.successes == p.breaker.successes
            && forall call | call in p.inflight :: call in q.inflight && q.inflight[call] == p.inflight[call]
    decreases cfg.halfOpenMaxCalls - p.breaker.halfOpenCalls
  {
    if p.breaker.halfOpenCalls == cfg.halfOpenMaxCalls {
      steps := [];
    } else {
      var call := FreshCall(p.inflight.Keys);
      AdmitOne(cfg, p, call);
      var q := Move(cfg, p, Arrive(call, 0.0));
      hide Move;
      var rest := FillSlots(cfg, q);
      steps := [Arrive(call, 0.0)] + rest;
      assert steps[1..] == rest;
    }
  }

  lemma {:induction false} MovesAppend(cfg: Config, p: Probes, a: seq<Step>, b: seq<Step>)
    ensures Moves(cfg, p, a + b) == Moves(cfg, Moves(cfg, p, a), b)
    decreases |a|
  {
    hide Move;
    if a == [] {
      assert a + b == b;
    } else {
      assert (a + b)[1..] == a[1..] + b;
      MovesAppend(cfg, Move(cfg, p, a[0]), a[1..], b);
    }
  }

  /** A stale success frees a slot that is not its own, and one more call gets in. */
  lemma StaleThenOneMore(cfg: Config, p: Probes, late: nat) returns (steps: seq<Step>)
    requires Exact(cfg, p) && p.breaker.halfOpenCalls == cfg.halfOpenMaxCalls >= 1
    requires p.breaker.successes + 1 < cfg.successThreshold
    requires late in p.inflight && p.inflight[late] != p.episode
    ensures Once(steps)
    ensures var q := Moves(cfg, p, steps);
            q.breaker.state == HalfOpen && q.episode == p.episode && |Unreported(q)| == cfg.halfOpenMaxCalls + 1
  {
    var call := FreshCall(p.inflight.Keys);
    var told := Report(late, true, 0.0);
    var q := Move(cfg, p, told);
    assert Unreported(q) == Unreported(p);
    AdmitOne(cfg, q, call);
    steps := [told, Arrive(call, 0.0)];
    assert steps[1..] == [Arrive(call, 0.0)] && [Arrive(call, 0.0)][1..] == [];
    hide Move;
    assert Moves(cfg, q, [Arrive(call, 0.0)]) == Moves(cfg, Move(cfg, q, Arrive(call, 0.0)), []);
  }

  /**
   From a half-open breaker whose slot counter is right, as it is at the start of each episode, the episode never
   has more unreported probes than configured, in any run of callers that report at most once, if and only if no
   call of an earlier time is still in flight, or the next success closes the breaker anyway.
   */
  lemma LateReportsIff(cfg: Config, p: Probes)
    requires Exact(cfg, p) && cfg.halfOpenMaxCalls >= 1
    ensures (forall steps | Once(steps) ::
               var q := Moves(cfg, p, steps);
               q.episode == p.episode && q.breaker.state == HalfOpen ==> |Unreported(q)| <= cfg.halfOpenMaxCalls)
            <==> OnlyOwn(p) || p.breaker.successes + 1 >= cfg.successThreshold
  {
    if OnlyOwn(p) || p.breaker.successes + 1 >= cfg.successThreshold {
      forall steps | Once(steps)
        ensures var q := Moves(cfg, p, steps);
                q.episode == p.episode && q.breaker.state == HalfOpen ==> |Unreported(q)| <= cfg.halfOpenMaxCalls
      {
        MovesWithin(cfg, p.episode, p, steps);
      }
    } else {
      var late :| late in p.inflight && p.inflight[late] != p.episode;
      hide Moves, Unreported;
      var fill := FillSlots(cfg, p);
      var over := StaleThenOneMore(cfg, Moves(cfg, p, fill), late);
      MovesAppend(cfg, p, fill, over);
      assert Once(fill + over);
    }
  }

  /** At the start of an episode nothing is counted and nothing of it is unreported, so the condition applies. */
  lemma EpisodeStartsExact(cfg: Config, steps: seq<Step>, now: real)
    requires var p := Moves(cfg, Start, steps);
             p.breaker.state == Open && Looked(cfg, p, now).breaker.state == HalfOpen && cfg.halfOpenMaxCalls >= 0
    ensures var q := Looked(cfg, Moves(cfg, Start, steps), now);
            Exact(cfg, q) && q.breaker.successes == 0 && Unreported(q) == {}
  {
    MovesKeep(cfg, Start, steps);
  }

  // ---------------------------------------------------------------------------
  // Callers that leave without reporting
  // ---------------------------------------------------------------------------

  predicate OnlyLooks(es: seq<Event>) {
    forall i :: 0 <= i < |es| ==> es[i].Query? || es[i].Check?
  }

  function After(cfg: Config, b: Breaker, es: seq<Event>): Breaker
    decreases |es|
  {
    if es == [] then b else After(cfg, Next(cfg, b, es[0]), es[1..])
  }

  /** With every slot held, no look at any time changes anything: only a report or a reset can. */
  lemma {:induction false} HeldSlotsRefuse(cfg: Config, b: Breaker, es: seq<Event>, now: real)
    requires b.state == HalfOpen && b.halfOpenCalls >= cfg.halfOpenMaxCalls && OnlyLooks(es)
    ensures After(cfg, b, es) == b && !Admits(cfg, After(cfg, b, es), now)
    decreases |es|
  {
    if es != [] {
      HeldSlotsRefuse(cfg, b, es[1..], now);
    }
  }

  /** What happens to one upload that gets past the breaker. */
  datatype Upload = BadFile | Stored | UploadFailed(at: real)

  /** What happens to one load of a processing result that gets past the breaker. */
  datatype Load = NoSuchKey | Loaded | GetFailed(at: real) | BadBody(at: real)

  datatype Outcome = CircuitOpen | Rejected | Done | ServerError | Missing

  function AfterUpload(cfg: Config, b: Breaker, u: Upload): Breaker {
    match u
    case BadFile => b
    case Stored => Succeeded(cfg, b)
    case UploadFailed(at) => Failed(cfg, b, at)
  }

  function AfterLoad(cfg: Config, b: Breaker, l: Load): Breaker {
    match l
    case NoSuchKey => b
    case Loaded => Succeeded(cfg, b)
    case GetFailed(at) => Failed(cfg, b, at)
    case BadBody(at) => Failed(cfg, Succeeded(cfg, b), at)
  }

  /** `check_state`, then `is_open` at a second reading of the clock. */
  function Gate(cfg: Config, b: Breaker, now: real, later: real): Breaker {
    Refreshed(cfg, Checked(cfg, b, now), later)
  }

  method StoreDocument(circuit: CircuitBreaker, now: real, later: real, u: Upload) returns (r: Outcome)
    modifies circuit
    ensures r == if !Admits(circuit.cfg, old(circuit.View()), now) then CircuitOpen
                 else match u case BadFile => Rejected case Stored => Done case UploadFailed(_) => ServerError
    ensures circuit.View() == UploadStep(circuit.cfg, old(circuit.View()), Attempt(now, later, u))
  {
    var admitted := circuit.CheckState(now);
    if !admitted {
      return CircuitOpen;
    }
    var s := circuit.GetState(later);
    if s == Open {
      return CircuitOpen;
    }
    match u {
      case BadFile => r := Rejected;
      case Stored =>
        circuit.RecordSuccess();
        r := Done;
      case UploadFailed(at) =>
        circuit.RecordFailure(at);
        r := ServerError;
    }
  }

  method LoadProcessingResult(circuit: CircuitBreaker, now: real, later: real, l: Load) returns (r: Outcome)
    modifies circuit
    ensures r == if !Admits(circuit.cfg, old(circuit.View()), now) then CircuitOpen
                 else if l.NoSuchKey? then Missing else if l.Loaded? then Done else ServerError
    ensures circuit.View() == LoadStep(circuit.cfg, old(circuit.View()), LoadAttempt(now, later, l))
  {
    var admitted := circuit.CheckState(now);
    if !admitted {
      return CircuitOpen;
    }
    var s := circuit.GetState(later);
    if s == Open {
      return CircuitOpen;
    }
    match l {
      case NoSuchKey => r := Missing;
      case Loaded =>
        circuit.RecordSuccess();
        r := Done;
      case GetFailed(at) =>
        circuit.RecordFailure(at);
        r := ServerError;
      case BadBody(at) =>
        circuit.RecordSuccess();
        circuit.RecordFailure(at);
        r := ServerError;
    }
  }

  datatype Attempt = Attempt(now: real, later: real, upload: Upload)

  function UploadStep(cfg: Config, b: Breaker, a: Attempt): Breaker {
    if !Admits(cfg, b, a.now) then Checked(cfg, b, a.now)
    else AfterUpload(cfg, Gate(cfg, b, a.now, a.later), a.upload)
  }

  datatype LoadAttempt = LoadAttempt(now: real, later: real, load: Load)

  function LoadStep(cfg: Config, b: Breaker, a: LoadAttempt): Breaker {
    if !Admits(cfg, b, a.now) then Checked(cfg, b, a.now)
    else AfterLoad(cfg, Gate(cfg, b, a.now, a.later), a.load)
  }

  function Loads(cfg: Config, b: Breaker, tries: seq<LoadAttempt>): Breaker
    decreases |tries|
  {
    if tries == [] then b else Loads(cfg, LoadStep(cfg, b, tries[0]), tries[1..])
  }

  function Uploads(cfg: Config, b: Breaker, tries: seq<Attempt>): Breaker
    decreases |tries|
  {
    if tries == [] then b else Uploads(cfg, UploadStep(cfg, b, tries[0]), tries[1..])
  }

  // --- what the callers report ---

  /** The reports of an upload: none for a bad file, one otherwise. */
  lemma UploadReports(cfg: Config, b: Breaker, a: Attempt)
    ensures UploadStep(cfg, b, a) ==
            if !Admits(cfg, b, a.now) then After(cfg, b, [Check(a.now)])
            else if a.upload.Stored? then After(cfg, b, [Check(a.now), Query(a.later), Success])
            else if a.upload.UploadFailed? then After(cfg, b, [Check(a.now), Query(a.later), Failure(a.upload.at)])
            else After(cfg, b, [Check(a.now), Query(a.later)])
  {
    AfterThree(cfg, b, Check(a.now), Query(a.later), Success);
    AfterThree(cfg, b, Check(a.now), Query(a.later), if a.upload.UploadFailed? then Failure(a.upload.at) else Reset);
  }

  /** The reports of a load: none for a missing result, a success and a failure for one that does not parse. */
  lemma LoadReports(cfg: Config, b: Breaker, a: LoadAttempt)
    ensures LoadStep(cfg, b, a) ==
            if !Admits(cfg, b, a.now) then After(cfg, b, [Check(a.now)])
            else if a.load.Loaded? then After(cfg, b, [Check(a.now), Query(a.later), Success])
            else if a.load.GetFailed? then After(cfg, b, [Check(a.now), Query(a.later), Failure(a.load.at)])
            else if a.load.BadBody? then After(cfg, b, [Check(a.now), Query(a.later), Success] + [Failure(a.load.at)])
            else After(cfg, b, [Check(a.now), Query(a.later)])
  {
    AfterThree(cfg, b, Check(a.now), Query(a.later), Success);
    AfterThree(cfg, b, Check(a.now), Query(a.later), if a.load.GetFailed? then Failure(a.load.at) else Reset);
    if a.load.BadBody? {
      AfterSnoc(cfg, b, [Check(a.now), Query(a.later), Success], Failure(a.load.at));
    }
  }

  lemma AfterThree(cfg: Config, b: Breaker, x: Event, y: Event, z: Event)
    ensures After(cfg, b, [x]) == Next(cfg, b, x)
    ensures After(cfg, b, [x, y]) == Next(cfg, Next(cfg, b, x), y)
    ensures After(cfg, b, [x, y, z]) == Next(cfg, Next(cfg, Next(cfg, b, x), y), z)
  {
    hide Next;
    var c := Next(cfg, b, x);
    var d := Next(cfg, c, y);
    assert [x][1..] == [] && [x, y][1..] == [y] && [y][1..] == [];
    assert [x, y, z][1..] == [y, z] && [y, z][1..] == [z] && [z][1..] == [];
    assert After(cfg, c, [y]) == After(cfg, d, []);
    assert After(cfg, d, [z]) == After(cfg, Next(cfg, d, z), []);
    assert After(cfg, c, [y, z]) == After(cfg, d, [z]);
  }

  lemma {:induction false} AfterSnoc(cfg: Config, b: Breaker, es: seq<Event>, e: Event)
    ensures After(cfg, b, es + [e]) == Next(cfg, After(cfg, b, es), e)
    decreases |es|
  {
    hide Next;
    if es == [] {
      assert (es + [e])[1..] == [];
    } else {
      assert (es + [e])[1..] == es[1..] + [e];
      AfterSnoc(cfg, Next(cfg, b, es[0]), es[1..], e);
    }
  }

  predicate AllUploadsFail(tries: seq<Attempt>) {
    forall i | 0 <= i < |tries| :: tries[i].upload.UploadFailed?
  }

  predicate AllGetsFail(tries: seq<LoadAttempt>) {
    forall i | 0 <= i < |tries| :: tries[i].load.GetFailed?
  }

  /** The recorded failure time of an open circuit is that of one of the failed attempts. */
  ghost predicate OpenSince(b: Breaker, times: set<real>) {
    b.state == Open && b.lastFailure.Some? && b.lastFailure.value in times
  }

  ghost function UploadTimes(tries: seq<Attempt>): set<real> {
    set i | 0 <= i < |tries| && tries[i].upload.UploadFailed? :: tries[i].upload.at
  }

  ghost function LoadTimes(tries: seq<LoadAttempt>): set<real> {
    set i | 0 <= i < |tries| && tries[i].load.GetFailed? :: tries[i].load.at
  }

  lemma {:induction false} OpenUploadsStayOpen(cfg: Config, b: Breaker, tries: seq<Attempt>, times: set<real>)
    requires OpenSince(b, times) && AllUploadsFail(tries) && cfg.halfOpenMaxCalls >= 1 && UploadTimes(tries) <= times
    ensures OpenSince(Uploads(cfg, b, tries), times)
    decreases |tries|
  {
    if tries != [] {
      assert tries[0].upload.at in UploadTimes(tries);
      assert UploadTimes(tries[1..]) <= UploadTimes(tries) by {
        forall i | 0 <= i < |tries[1..]|
          ensures tries[1..][i].upload.UploadFailed? ==> tries[1..][i].upload.at in UploadTimes(tries)
        {
          assert tries[1..][i] == tries[i + 1];
        }
      }
      OpenUploadsStayOpen(cfg, UploadStep(cfg, b, tries[0]), tries[1..], times);
    }
  }

  /** Failed uploads that bring a closed circuit to its threshold open it, since the time of one of them. */
  lemma {:induction false} FailedUploadsTrip(cfg: Config, b: Breaker, tries: seq<Attempt>, times: set<real>)
    requires b.state == Closed && AllUploadsFail(tries) && tries != [] && cfg.halfOpenMaxCalls >= 1
    requires b.failures + |tries| >= cfg.failureThreshold && UploadTimes(tries) <= times
    ensures OpenSince(Uploads(cfg, b, tries), times)
    decreases |tries|
  {
    var c := UploadStep(cfg, b, tries[0]);
    assert tries[0].upload.at in UploadTimes(tries);
    assert UploadTimes(tries[1..]) <= UploadTimes(tries) by {
      forall i | 0 <= i < |tries[1..]|
        ensures tries[1..][i].upload.UploadFailed? ==> tries[1..][i].upload.at in UploadTimes(tries)
      {
        assert tries[1..][i] == tries[i + 1];
      }
    }
    if c.state == Open {
      OpenUploadsStayOpen(cfg, c, tries[1..], times);
    } else {
      FailedUploadsTrip(cfg, c, tries[1..], times);
    }
  }

  lemma {:induction false} OpenLoadsStayOpen(cfg: Config, b: Breaker, tries: seq<LoadAttempt>, times: set<real>)
    requires OpenSince(b, times) && AllGetsFail(tries) && cfg.halfOpenMaxCalls >= 1 && LoadTimes(tries) <= times
    ensures OpenSince(Loads(cfg, b, tries), times)
    decreases |tries|
  {
    if tries != [] {
      assert tries[0].load.at in LoadTimes(tries);
      assert LoadTimes(tries[1..]) <= LoadTimes(tries) by {
        forall i | 0 <= i < |tries[1..]|
          ensures tries[1..][i].load.GetFailed? ==> tries[1..][i].load.at in LoadTimes(tries)
        {
          assert tries[1..][i] == tries[i + 1];
        }
      }
      OpenLoadsStayOpen(cfg, LoadStep(cfg, b, tries[0]), tries[1..], times);
    }
  }

  /** The same for loads whose request fails. */
  lemma {:induction false} FailedLoadsTrip(cfg: Config, b: Breaker, tries: seq<LoadAttempt>, times: set<real>)
    requires b.state == Closed && AllGetsFail(tries) && tries != [] && cfg.halfOpenMaxCalls >= 1
    requires b.failures + |tries| >= cfg.failureThreshold && LoadTimes(tries) <= times
    ensures OpenSince(Loads(cfg, b, tries), times)
    decreases |tries|
  {
    var c := LoadStep(cfg, b, tries[0]);
    assert tries[0].load.at in LoadTimes(tries);
    assert LoadTimes(tries[1..]) <= LoadTimes(tries) by {
      forall i | 0 <= i < |tries[1..]|
        ensures tries[1..][i].load.GetFailed? ==> tries[1..][i].load.at in LoadTimes(tries)
      {
        assert tries[1..][i] == tries[i + 1];
      }
    }
    if c.state == Open {
      OpenLoadsStayOpen(cfg, c, tries[1..], times);
    } else {
      FailedLoadsTrip(cfg, c, tries[1..], times);
    }
  }

  predicate AllBadBodies(tries: seq<LoadAttempt>) {
    forall i | 0 <= i < |tries| :: tries[i].load.BadBody?
  }

  /**
   Results that do not parse are recorded as a success first, so from a closed circuit no number of them in a row
   ever opens it, unless a single failure does.
   */
  lemma {:induction false} BadBodiesTripIff(cfg: Config, b: Breaker, tries: seq<LoadAttempt>)
    requires b.state == Closed && tries != [] && AllBadBodies(tries) && cfg.halfOpenMaxCalls >= 1
    ensures cfg.failureThreshold > 1 ==>
              Loads(cfg, b, tries).state == Closed && Loads(cfg, b, tries).failures == 1
    ensures |tries| == 1 ==> (Loads(cfg, b, tries).state == Open <==> cfg.failureThreshold <= 1)
    decreases |tries|
  {
    var c := LoadStep(cfg, b, tries[0]);
    if |tries| == 1 {
      assert tries[1..] == [];
    } else if cfg.failureThreshold > 1 {
      BadBodiesTripIff(cfg, c, tries[1..]);
    }
  }

  /** A call that goes well forgets the failures of a closed circuit; a half-open one counts it as a probe. */
  lemma GoodCalls(cfg: Config, b: Breaker, now: real, later: real)
    requires b.state == Closed || (b.state == HalfOpen && b.halfOpenCalls < cfg.halfOpenMaxCalls)
    ensures UploadStep(cfg, b, Attempt(now, later, Stored)) == LoadStep(cfg, b, LoadAttempt(now, later, Loaded)) ==
            if b.state == Closed then b.(failures := 0)
            else if b.successes + 1 >= cfg.successThreshold then Breaker(Closed, 0, 0, None, 0)
            else b.(successes := b.successes + 1)
  {
  }

  /** A call that fails opens a half-open circuit at once. */
  lemma FailedProbe(cfg: Config, b: Breaker, now: real, later: real, at: real)
    requires b.state == HalfOpen && b.halfOpenCalls < cfg.halfOpenMaxCalls
    ensures UploadStep(cfg, b, Attempt(now, later, UploadFailed(at)))
            == LoadStep(cfg, b, LoadAttempt(now, later, GetFailed(at)))
            == Breaker(Open, b.failures + 1, 0, Some(at), 0)
  {
  }

  /** Nobody reports for the call that left, nobody reports twice, and nobody resets the breaker. */
  predicate Unhelped(steps: seq<Step>, lost: nat) {
    forall i | 0 <= i < |steps| ::
      match steps[i]
      case Report(call, _, _) => call != lost
      case Again(_, _) => false
      case Clear => false
      case _ => true
  }

  lemma {:induction false} OnlyLostInFlight(cfg: Config, q: Probes, lost: nat, steps: seq<Step>)
    requires HeldForGood(cfg, q.breaker) && q.inflight.Keys == {lost} && Unhelped(steps, lost)
    ensures Moves(cfg, q, steps).breaker == q.breaker
    decreases |steps|
  {
    if steps != [] {
      var s := steps[0];
      assert Move(cfg, q, s).breaker == q.breaker && Move(cfg, q, s).inflight == q.inflight;
      OnlyLostInFlight(cfg, Move(cfg, q, s), lost, steps[1..]);
    }
  }

  /**
   With one probe allowed, as configured for storage, a probe that carries an invalid file leaves the half-open
   circuit with its slot held. Whoever arrives then and whenever, the breaker never moves again and refuses
   every call, if and only if no other call was still in flight to report.
   */
  lemma BadFileBlocksUploads(cfg: Config, p: Probes, lost: nat, now: real)
    requires p.breaker.state == HalfOpen && p.breaker.halfOpenCalls == 0 && cfg.halfOpenMaxCalls == 1
    requires lost !in p.inflight
    ensures var q := Move(cfg, p, Arrive(lost, now));
            HeldForGood(cfg, q.breaker) && (forall later :: !Admits(cfg, q.breaker, later))
            && ((forall steps | Unhelped(steps, lost) :: Moves(cfg, q, steps).breaker == q.breaker)
                <==> p.inflight == map[])
  {
    var q := Move(cfg, p, Arrive(lost, now));
    assert q.inflight.Keys == p.inflight.Keys + {lost};
    if p.inflight == map[] {
      forall steps | Unhelped(steps, lost)
        ensures Moves(cfg, q, steps).breaker == q.breaker
      {
        OnlyLostInFlight(cfg, q, lost, steps);
      }
    } else {
      var call :| call in p.inflight;
      var steps := [Report(call, false, now)];
      var x := Move(cfg, q, steps[0]);
      assert steps[1..] == [] && Moves(cfg, x, []) == x;
      assert Unhelped(steps, lost) && Moves(cfg, q, steps).breaker != q.breaker;
    }
  }

  /** The same for uploads that follow one another: none of any kind, at any time, is admitted. */
  lemma {:induction false} BadFileBlocksInTurn(cfg: Config, b: Breaker, a: Attempt, tries: seq<Attempt>, now: real)
    requires b.state == HalfOpen && b.halfOpenCalls == 0 && cfg.halfOpenMaxCalls == 1 && a.upload == BadFile
    ensures !Admits(cfg, Uploads(cfg, UploadStep(cfg, b, a), tries), now)
  {
    BlockedUploads(cfg, UploadStep(cfg, b, a), tries);
  }

  lemma {:induction false} BlockedUploads(cfg: Config, b: Breaker, tries: seq<Attempt>)
    requires b.state == HalfOpen && b.halfOpenCalls >= cfg.halfOpenMaxCalls
    ensures Uploads(cfg, b, tries) == b
    decreases |tries|
  {
    if tries != [] {
      BlockedUploads(cfg, b, tries[1..]);
    }
  }

  /** A result missing from storage does the same to downloads; a valid file or an upload error does not. */
  lemma UnreportedExactly(cfg: Config, b: Breaker, now: real, later: real, u: Upload, l: Load)
    requires b.state == HalfOpen && b.halfOpenCalls == 0 && cfg.halfOpenMaxCalls == 1
    ensures HeldForGood(cfg, AfterUpload(cfg, Gate(cfg, b, now, later), u)) <==> u == BadFile
    ensures HeldForGood(cfg, AfterLoad(cfg, Gate(cfg, b, now, later), l)) <==> l == NoSuchKey
  {
  }

  predicate HeldForGood(cfg: Config, b: Breaker) {
    b.state == HalfOpen && b.halfOpenCalls >= cfg.halfOpenMaxCalls
  }
}
