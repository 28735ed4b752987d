/** A circuit breaker per endpoint, and what its state says about the calls recorded so far. */
module CircuitBreaker {
  import opened Options

  datatype CircuitState = CLOSED | OPEN | HALF_OPEN

  datatype StateChange = Opened(failures: nat) | ClosedAgain

  datatype Config = Config(failureThreshold: int, recoveryTimeout: real, successThreshold: int)

  datatype Breaker = Breaker(state: CircuitState, failures: nat, successes: nat, lastFailure: real,
                             lastChange: Option<StateChange>)

  /** What is done to a breaker; Check reads its state. */
  datatype Event = Success | Failure(time: real) | Check(time: real) | Reset

  const FRESH: Breaker := Breaker(CLOSED, 0, 0, 0.0, None)

  function Step(cfg: Config, b: Breaker, e: Event): Breaker {
    match e
    case Check(now) =>
      if b.state == OPEN && now - b.lastFailure >= cfg.recoveryTimeout
      then b.(state := HALF_OPEN, successes := 0)
      else b
    case Success =>
      if b.state == HALF_OPEN then
        if b.successes + 1 >= cfg.successThreshold
        then Breaker(CLOSED, 0, 0, b.lastFailure, Some(ClosedAgain))
        else b.(successes := b.successes + 1)
      else if b.state == CLOSED then b.(failures := 0)
      else b
    case Failure(now) =>
      var c := b.(failures := b.failures + 1, lastFailure := now);
      if b.state == HALF_OPEN then c.(state := OPEN, successes := 0)
      else if b.state == CLOSED && c.failures >= cfg.failureThreshold
      then c.(state := OPEN, lastChange := Some(Opened(c.failures)))
      else c
    case Reset => b.(state := CLOSED, failures := 0, successes := 0)
  }

  function After(cfg: Config, log: seq<Event>): Breaker {
    if log == [] then FRESH else Step(cfg, After(cfg, log[..|log| - 1]), log[|log| - 1])
  }

  lemma AfterSnoc(cfg: Config, log: seq<Event>, e: Event)
    ensures After(cfg, log + [e]) == Step(cfg, After(cfg, log), e)
  {
    assert (log + [e])[..|log|] == log;
  }

  class CircuitBreaker {
    const cfg: Config
    var state: CircuitState
    var failures: nat
    var successes: nat
    var lastFailure: real
    var lastChange: Option<StateChange>
    ghost var log: seq<Event>

    /** The fields are what the history makes of a fresh breaker. */
    ghost predicate Valid()
      reads this
    {
      Breaker(state, failures, successes, lastFailure, lastChange) == After(cfg, log)
    }

    constructor (cfg: Config)
      ensures Valid() && log == [] && this.cfg == cfg
    {
      this.cfg, state, failures, successes, lastFailure, lastChange, log := cfg, CLOSED, 0, 0, 0.0, None, [];
    }

    method GetState(now: real) returns (s: CircuitState)
      requires Valid()
      modifies this
      ensures Valid() && log == old(log) + [Check(now)] && s == state
    {
      if state == OPEN {
        var elapsed := now - lastFailure;
        if elapsed >= cfg.recoveryTimeout {
          state := HALF_OPEN;
          successes := 0;
        }
      }
      AfterSnoc(cfg, log, Check(now));
      log := log + [Check(now)];
      s := state;
    }

    method IsAvailable(now: real) returns (available: bool)
      requires Valid()
      modifies this
      ensures Valid() && log == old(log) + [Check(now)] && (available <==> state != OPEN)
    {
      var current := GetState(now);
      available := current != OPEN;
    }

    method RecordSuccess()
      requires Valid()
      modifies this
      ensures Valid() && log == old(log) + [Success]
    {
      if state == HALF_OPEN {
        successes := successes + 1;
        if successes >= cfg.successThreshold {
          state := CLOSED;
          failures := 0;
          successes := 0;
          lastChange := Some(ClosedAgain);
        }
      } else if state == CLOSED {
        failures := 0;
      }
      AfterSnoc(cfg, log, Success);
      log := log + [Success];
    }

    method RecordFailure(now: real)
      requires Valid()
      modifies this
      ensures Valid() && log == old(log) + [Failure(now)]
    {
      failures := failures + 1;
      lastFailure := now;
      if state == HALF_OPEN {
        state := OPEN;
        successes := 0;
      } else if state == CLOSED && failures >= cfg.failureThreshold {
        state := OPEN;
        lastChange := Some(Opened(failures));
      }
      AfterSnoc(cfg, log, Failure(now));
      log := log + [Failure(now)];
    }

    method ForceReset()
      requires Valid()
      modifies this
      ensures Valid() && log == old(log) + [Reset]
    {
      state := CLOSED;
      failures := 0;
      successes := 0;
      AfterSnoc(cfg, log, Reset);
      log := log + [Reset];
    }
  }

  // ------------------------------------------------------- the closed-state counter

  predicate Sound(cfg: Config) {
    cfg.failureThreshold >= 1 && cfg.successThreshold >= 1
  }

  /** Failures since the last success or reset. Closing is itself a success. */
  function TrailingFailures(log: seq<Event>): nat {
    if log == [] then 0
    else
      var before, e := log[..|log| - 1], log[|log| - 1];
      match e
      case Failure(_) => TrailingFailures(before) + 1
      case Check(_) => TrailingFailures(before)
      case Success => 0
      case Reset => 0
  }

  /** While closed, the counter is the run of failures at the end of the history, and that
      run is shorter than the threshold. */
  lemma {:induction false} ClosedCountsTheRun(cfg: Config, log: seq<Event>)
    requires Sound(cfg)
    ensures After(cfg, log).state == CLOSED ==>
              After(cfg, log).failures == TrailingFailures(log) < cfg.failureThreshold
  {
    if log != [] { ClosedCountsTheRun(cfg, log[..|log| - 1]); }
  }

  /** It opens from closed exactly when that run reaches the threshold. */
  lemma OpensExactlyAtTheThreshold(cfg: Config, log: seq<Event>, now: real)
    requires Sound(cfg) && After(cfg, log).state == CLOSED
    ensures After(cfg, log + [Failure(now)]).state == OPEN <==> TrailingFailures(log) + 1 == cfg.failureThreshold
  {
    ClosedCountsTheRun(cfg, log);
    assert (log + [Failure(now)])[..|log|] == log;
  }

  // -------------------------------------------------------------------- open

  predicate Timed(e: Event) {
    e.Failure? || e.Check?
  }

  ghost predicate Monotone(log: seq<Event>) {
    forall i, j :: 0 <= i < j < |log| && Timed(log[i]) && Timed(log[j]) ==> log[i].time <= log[j].time
  }

  /** No failure among the events is later than `since`. */
  ghost predicate NoFailureAfter(log: seq<Event>, since: real) {
    forall i :: 0 <= i < |log| && log[i].Failure? ==> log[i].time <= since
  }

  /** `t` is the latest failure. */
  ghost predicate LatestFailure(log: seq<Event>, t: real) {
    NoFailureAfter(log, t) && exists i :: 0 <= i < |log| && log[i] == Failure(t)
  }

  lemma {:induction false} OpenRemembersItsFailure(cfg: Config, log: seq<Event>)
    requires Sound(cfg) && Monotone(log)
    ensures After(cfg, log).state != CLOSED ==> LatestFailure(log, After(cfg, log).lastFailure)
    ensures (exists i :: 0 <= i < |log| && log[i].Failure?) ==> LatestFailure(log, After(cfg, log).lastFailure)
  {
    if log != [] {
      var n := |log| - 1;
      var before := log[..n];
      assert log == before + [log[n]];
      MonotonePrefix(before, log[n]);
      OpenRemembersItsFailure(cfg, before);
      LatestFailureSnoc(before, log[n], After(cfg, before).lastFailure);
    }
  }

  lemma LatestFailureSnoc(log: seq<Event>, e: Event, t: real)
    requires Monotone(log + [e])
    ensures e.Failure? ==> LatestFailure(log + [e], e.time)
    ensures !e.Failure? && LatestFailure(log, t) ==> LatestFailure(log + [e], t)
    ensures !e.Failure? && (exists i :: 0 <= i < |log + [e]| && (log + [e])[i].Failure?) ==>
              exists i :: 0 <= i < |log| && log[i].Failure?
  {
    var all := log + [e];
    if e.Failure? {
      assert all[|log|] == Failure(e.time);
    } else {
      if LatestFailure(log, t) {
        var i :| 0 <= i < |log| && log[i] == Failure(t);
        assert all[i] == Failure(t);
      }
      if i :| 0 <= i < |all| && all[i].Failure? { assert log[i].Failure?; }
    }
  }

  lemma MonotonePrefix(log: seq<Event>, e: Event)
    requires Monotone(log + [e])
    ensures Monotone(log)
  {
    var all := log + [e];
    forall i, j | 0 <= i < j < |log| && Timed(log[i]) && Timed(log[j]) ensures log[i].time <= log[j].time {
      assert all[i] == log[i] && all[j] == log[j];
    }
  }

  lemma FailureAt(log: seq<Event>, t: real)
    requires LatestFailure(log, t)
    ensures exists i :: 0 <= i < |log| && log[i].Failure? && log[i].time == t
  {
    var i :| 0 <= i < |log| && log[i] == Failure(t);
    assert log[i].time == t;
  }

  /** The breaker reads OPEN at a time only if there was a failure less than the recovery
      timeout before. */
  lemma OpenOnlyAfterAFailure(cfg: Config, log: seq<Event>, now: real)
    requires Sound(cfg) && Monotone(log + [Check(now)])
    requires After(cfg, log + [Check(now)]).state == OPEN
    ensures exists i :: 0 <= i < |log| && log[i].Failure? && now - log[i].time < cfg.recoveryTimeout
  {
    assert After(cfg, log).state == OPEN && now - After(cfg, log).lastFailure < cfg.recoveryTimeout by {
      AfterSnoc(cfg, log, Check(now));
    }
    MonotonePrefix(log, Check(now));
    OpenRemembersItsFailure(cfg, log);
    FailureAt(log, After(cfg, log).lastFailure);
  }

  // -------------------------------------------------------------------- half open

  function Successes(log: seq<Event>): nat {
    if log == [] then 0 else Successes(log[..|log| - 1]) + if log[|log| - 1].Success? then 1 else 0
  }

  ghost predicate Quiet(log: seq<Event>) {
    forall i :: 0 <= i < |log| ==> !log[i].Failure? && !log[i].Reset?
  }

  ghost predicate HalfOpenSince(cfg: Config, log: seq<Event>, k: nat) {
    forall p :: k < p < |log| ==> After(cfg, log[..p]).state == HALF_OPEN
  }

  /** The trial began at event k: open until then, a check no failure had preceded by less
      than the timeout, and neither failure nor reset since. */
  ghost predicate Trial(cfg: Config, log: seq<Event>, k: nat) {
    && k < |log| && log[k].Check? && After(cfg, log[..k]).state == OPEN && HalfOpenSince(cfg, log, k)
    && NoFailureAfter(log[..k], log[k].time - cfg.recoveryTimeout)
    && Quiet(log[k + 1..])
  }

  lemma TrialGoesOn(cfg: Config, log: seq<Event>, k: nat, e: Event)
    requires Trial(cfg, log, k) && !e.Failure? && !e.Reset? && After(cfg, log).state == HALF_OPEN
    ensures Trial(cfg, log + [e], k)
    ensures Successes((log + [e])[k + 1..]) == Successes(log[k + 1..]) + if e.Success? then 1 else 0
  {
    var all := log + [e];
    assert all[..k] == log[..k] && all[k + 1..] == log[k + 1..] + [e];
    assert (log[k + 1..] + [e])[..|log[k + 1..]|] == log[k + 1..];
    forall p | k < p < |all| ensures After(cfg, all[..p]).state == HALF_OPEN {
      if p < |log| { assert all[..p] == log[..p]; } else { assert all[..p] == log; }
    }
  }

  lemma TrialBegins(cfg: Config, log: seq<Event>, now: real)
    requires Sound(cfg) && Monotone(log) && After(cfg, log).state == OPEN
    requires now - After(cfg, log).lastFailure >= cfg.recoveryTimeout
    ensures Trial(cfg, log + [Check(now)], |log|)
    ensures Successes((log + [Check(now)])[|log| + 1..]) == 0
  {
    OpenRemembersItsFailure(cfg, log);
    var all := log + [Check(now)];
    assert all[..|log|] == log && all[|log| + 1..] == [];
  }

  ghost predicate HalfOpenInv(cfg: Config, log: seq<Event>) {
    var b := After(cfg, log);
    b.state == HALF_OPEN ==>
      b.successes < cfg.successThreshold
      && exists k: nat :: Trial(cfg, log, k) && Successes(log[k + 1..]) == b.successes
  }

  lemma {:induction false} HalfOpenIsATrial(cfg: Config, log: seq<Event>)
    requires Sound(cfg) && Monotone(log)
    ensures HalfOpenInv(cfg, log)
  {
    if log != [] {
      var before, e := log[..|log| - 1], log[|log| - 1];
      assert log == before + [e];
      MonotonePrefix(before, e);
      HalfOpenIsATrial(cfg, before);
      if After(cfg, log).state == HALF_OPEN {
        if After(cfg, before).state == HALF_OPEN {
          var k: nat :| Trial(cfg, before, k) && Successes(before[k + 1..]) == After(cfg, before).successes;
          TrialGoesOn(cfg, before, k, e);
        } else {
          TrialBegins(cfg, before, e.time);
        }
      }
    }
  }

  /** The breaker closes on its own only at the end of a trial: a failure-free recovery
      timeout, then as many successes as the threshold asks, and no failure among them. */
  lemma ClosesOnlyAfterATrial(cfg: Config, log: seq<Event>, e: Event)
    requires Sound(cfg) && Monotone(log + [e]) && !e.Reset?
    requires After(cfg, log).state != CLOSED && After(cfg, log + [e]).state == CLOSED
    ensures e.Success?
    ensures exists k: nat :: Trial(cfg, log + [e], k) && Successes((log + [e])[k + 1..]) == cfg.successThreshold
  {
    AfterSnoc(cfg, log, e);
    MonotonePrefix(log, e);
    HalfOpenIsATrial(cfg, log);
    var k: nat :| Trial(cfg, log, k) && Successes(log[k + 1..]) == After(cfg, log).successes;
    TrialGoesOn(cfg, log, k, e);
  }

  lemma {:induction false} SomewhereItCloses(cfg: Config, log: seq<Event>, i: nat, j: nat) returns (m: nat)
    requires i <= j <= |log| && After(cfg, log[..i]).state != CLOSED && After(cfg, log[..j]).state == CLOSED
    ensures i <= m < j && After(cfg, log[..m]).state != CLOSED && After(cfg, log[..m + 1]).state == CLOSED
    decreases j - i
  {
    assert i < j;
    if After(cfg, log[..i + 1]).state != CLOSED { m := SomewhereItCloses(cfg, log, i + 1, j); } else { m := i; }
  }

  /** A whole trial ends at m: it began after i and had its successes. */
  ghost predicate TrialBetween(cfg: Config, log: seq<Event>, i: nat, m: nat) {
    i < m <= |log|
    && exists k: nat :: i <= k && Trial(cfg, log[..m], k) && Successes(log[..m][k + 1..]) == cfg.successThreshold
  }

  lemma ClosingEndsATrial(cfg: Config, log: seq<Event>, i: nat, m: nat)
    requires Sound(cfg) && Monotone(log) && i <= m < |log| && !log[m].Reset?
    requires After(cfg, log[..i]).state == OPEN
    requires After(cfg, log[..m]).state != CLOSED && After(cfg, log[..m + 1]).state == CLOSED
    ensures TrialBetween(cfg, log, i, m + 1)
  {
    var all := log[..m + 1];
    assert all == log[..m] + [log[m]];
    ClosesOnlyAfterATrial(cfg, log[..m], log[m]);
    var k: nat :| Trial(cfg, all, k) && Successes(all[k + 1..]) == cfg.successThreshold;
    assert all[..i] == log[..i];
  }

  /** From open to closed without a reset lies a whole trial. */
  lemma OpenToClosedTakesATrial(cfg: Config, log: seq<Event>, i: nat, j: nat)
    requires Sound(cfg) && Monotone(log) && i <= j <= |log|
    requires After(cfg, log[..i]).state == OPEN && After(cfg, log[..j]).state == CLOSED
    requires forall m :: i <= m < j ==> !log[m].Reset?
    ensures exists m: nat :: m <= j && TrialBetween(cfg, log, i, m)
  {
    var m := SomewhereItCloses(cfg, log, i, j);
    ClosingEndsATrial(cfg, log, i, m);
  }

  // ------------------------------------------------------- every transition, exactly

  /** The trial that is going on has all but one of its successes. */
  ghost predicate OneSuccessLeft(cfg: Config, log: seq<Event>) {
    exists k: nat :: Trial(cfg, log, k) && Successes(log[k + 1..]) + 1 == cfg.successThreshold
  }

  lemma NotOpenInTrial(cfg: Config, log: seq<Event>, k: nat, p: nat)
    requires Trial(cfg, log, k) && k < p < |log|
    ensures After(cfg, log[..p]).state != OPEN
  {
  }

  lemma TrialIsUnique(cfg: Config, log: seq<Event>, k: nat, k': nat)
    requires Trial(cfg, log, k) && Trial(cfg, log, k')
    ensures k == k'
  {
    if k < k' { NotOpenInTrial(cfg, log, k, k'); }
    if k' < k { NotOpenInTrial(cfg, log, k', k); }
  }

  lemma FailureOutlasts(log: seq<Event>, t: real, since: real)
    requires LatestFailure(log, t)
    ensures NoFailureAfter(log, since) <==> t <= since
  {
    var i :| 0 <= i < |log| && log[i] == Failure(t);
    if NoFailureAfter(log, since) { assert log[i].time <= since; }
  }

  /** Closed: it opens on the failure that completes the run, and on nothing else. */
  lemma FromClosedExactly(cfg: Config, log: seq<Event>, e: Event)
    requires Sound(cfg) && After(cfg, log).state == CLOSED
    ensures var now := After(cfg, log + [e]);
      var opens := e.Failure? && TrailingFailures(log) + 1 == cfg.failureThreshold;
      && now.state == (if opens then OPEN else CLOSED)
      && now.lastChange == if opens then Some(Opened(cfg.failureThreshold)) else After(cfg, log).lastChange
  {
    ClosedCountsTheRun(cfg, log);
    AfterSnoc(cfg, log, e);
  }

  /** Open: a reset closes it, a check finds it half open exactly when no failure lies less
      than the recovery timeout back, and nothing else moves it. */
  lemma FromOpenExactly(cfg: Config, log: seq<Event>, e: Event)
    requires Sound(cfg) && Monotone(log) && After(cfg, log).state == OPEN
    ensures var now := After(cfg, log + [e]);
      && now.state == (if e.Reset? then CLOSED
                       else if e.Check? && NoFailureAfter(log, e.time - cfg.recoveryTimeout) then HALF_OPEN
                       else OPEN)
      && now.lastChange == After(cfg, log).lastChange
  {
    AfterSnoc(cfg, log, e);
    OpenRemembersItsFailure(cfg, log);
    if e.Check? { FailureOutlasts(log, After(cfg, log).lastFailure, e.time - cfg.recoveryTimeout); }
  }

  /** Half open: a reset closes it, and so does the last success of the trial; a failure opens
      it again, and nothing else moves it. */
  lemma FromHalfOpenExactly(cfg: Config, log: seq<Event>, e: Event)
    requires Sound(cfg) && Monotone(log) && After(cfg, log).state == HALF_OPEN
    ensures var now := After(cfg, log + [e]);
      var done := e.Success? && OneSuccessLeft(cfg, log);
      && now.state == (if e.Reset? || done then CLOSED else if e.Failure? then OPEN else HALF_OPEN)
      && now.lastChange == if done then Some(ClosedAgain) else After(cfg, log).lastChange
  {
    AfterSnoc(cfg, log, e);
    OneSuccessLeftExactly(cfg, log);
  }

  lemma OneSuccessLeftExactly(cfg: Config, log: seq<Event>)
    requires Sound(cfg) && Monotone(log) && After(cfg, log).state == HALF_OPEN
    ensures OneSuccessLeft(cfg, log) <==> After(cfg, log).successes + 1 == cfg.successThreshold
    ensures After(cfg, log).successes < cfg.successThreshold
  {
    HalfOpenIsATrial(cfg, log);
    var k: nat :| Trial(cfg, log, k) && Successes(log[k + 1..]) == After(cfg, log).successes;
    if k': nat :| Trial(cfg, log, k') && Successes(log[k' + 1..]) + 1 == cfg.successThreshold {
      TrialIsUnique(cfg, log, k, k');
    }
  }

  /** Read off the events alone: an open breaker, a check with no failure in the recovery
      timeout before it, then neither failure nor reset. */
  lemma {:induction false} TrialRuns(cfg: Config, before: seq<Event>, now: real, trial: seq<Event>)
    requires Sound(cfg) && Monotone(before + [Check(now)] + trial) && After(cfg, before).state == OPEN
    requires NoFailureAfter(before, now - cfg.recoveryTimeout) && Quiet(trial)
    requires Successes(trial) < cfg.successThreshold
    ensures var b := After(cfg, before + [Check(now)] + trial);
      b.state == HALF_OPEN && b.successes == Successes(trial)
    decreases |trial|
  {
    if trial == [] {
      assert before + [Check(now)] + trial == before + [Check(now)];
      MonotonePrefix(before, Check(now));
      FromOpenExactly(cfg, before, Check(now));
      AfterSnoc(cfg, before, Check(now));
    } else {
      var n := |trial| - 1;
      assert trial[..n] + [trial[n]] == trial;
      var log := before + [Check(now)] + trial[..n];
      assert before + [Check(now)] + trial == log + [trial[n]];
      MonotonePrefix(log, trial[n]);
      TrialRuns(cfg, before, now, trial[..n]);
      AfterSnoc(cfg, log, trial[n]);
    }
  }

  /** A whole trial closes the breaker: as many successes as the threshold asks, the last
      event being the last of them. */
  lemma WholeTrialCloses(cfg: Config, before: seq<Event>, now: real, trial: seq<Event>)
    requires Sound(cfg) && Monotone(before + [Check(now)] + trial + [Success]) && After(cfg, before).state == OPEN
    requires NoFailureAfter(before, now - cfg.recoveryTimeout) && Quiet(trial)
    requires Successes(trial) + 1 == cfg.successThreshold
    ensures var b := After(cfg, before + [Check(now)] + trial + [Success]);
      b.state == CLOSED && b.failures == 0
  {
    var log := before + [Check(now)] + trial;
    MonotonePrefix(log, Success);
    TrialRuns(cfg, before, now, trial);
    AfterSnoc(cfg, log, Success);
  }

  /** Without a reset it closes exactly on the last success of a trial. */
  lemma ClosesExactlyAfterATrial(cfg: Config, log: seq<Event>, e: Event)
    requires Sound(cfg) && Monotone(log) && !e.Reset? && After(cfg, log).state != CLOSED
    ensures After(cfg, log + [e]).state == CLOSED <==> e.Success? && OneSuccessLeft(cfg, log)
  {
    if After(cfg, log).state == HALF_OPEN {
      FromHalfOpenExactly(cfg, log, e);
    } else {
      FromOpenExactly(cfg, log, e);
      if k: nat :| Trial(cfg, log, k) && Successes(log[k + 1..]) + 1 == cfg.successThreshold {
        TrialIsOpenNoMore(cfg, log, k);
      }
    }
  }

  /** While a trial goes on and is short of its successes, the breaker is half open. */
  lemma TrialIsOpenNoMore(cfg: Config, log: seq<Event>, k: nat)
    requires Sound(cfg) && Monotone(log) && Trial(cfg, log, k)
    requires Successes(log[k + 1..]) < cfg.successThreshold
    ensures After(cfg, log).state == HALF_OPEN
  {
    assert log[..k] + [Check(log[k].time)] + log[k + 1..] == log;
    TrialRuns(cfg, log[..k], log[k].time, log[k + 1..]);
  }

  /** A reset closes from every state and starts counting anew. */
  lemma ResetCloses(cfg: Config, log: seq<Event>)
    ensures After(cfg, log + [Reset]).state == CLOSED
    ensures TrailingFailures(log + [Reset]) == 0
  {
    AfterSnoc(cfg, log, Reset);
    assert (log + [Reset])[..|log|] == log;
  }
}
