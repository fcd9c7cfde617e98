/** DNS failover: a hysteresis machine with two thresholds, and the daily window that changes the preference. */
module DnsFailover {
  import opened Wrappers

  // ---- The peak window ----

  const DAY_MINUTES: nat := 1440
  const DAY_SECONDS: nat := 86400

  /** Half-open, and across midnight when it starts later than it ends. Times are minutes of the day. */
  predicate PeakWindowActive(current: nat, start: nat, end: nat) {
    if start < end then start <= current < end else current >= start || current < end
  }

  datatype Target = Primary | Backup {
    function Other(): Target {
      if this == Primary then Backup else Primary
    }
  }

  /** What is preferred at a wall-clock second of the day. */
  function Preferred(second: nat, start: nat, end: nat): Target {
    if PeakWindowActive(second / 60, start, end) then Backup else Primary
  }

  function SecondsToNextTransition(second: nat, start: nat, end: nat): nat
    requires second < DAY_SECONDS
  {
    var boundary := if PeakWindowActive(second / 60, start, end) then end else start;
    var delta := (boundary * 60 - second) % DAY_SECONDS;
    if delta == 0 then DAY_SECONDS else delta
  }

  /** The preference holds for exactly that many seconds, less than a day, and then it is the other one. */
  lemma TransitionIsExact(second: nat, start: nat, end: nat, t: nat)
    requires second < DAY_SECONDS && start < DAY_MINUTES && end < DAY_MINUTES && start != end
    ensures var delta := SecondsToNextTransition(second, start, end);
      && 1 <= delta < DAY_SECONDS
      && (t < delta ==> Preferred((second + t) % DAY_SECONDS, start, end) == Preferred(second, start, end))
      && (t == delta ==> Preferred((second + t) % DAY_SECONDS, start, end) == Preferred(second, start, end).Other())
  {
    ActiveInSeconds(second, start, end);
    ActiveInSeconds((second + t) % DAY_SECONDS, start, end);
    var delta := SecondsToNextTransition(second, start, end);
    var boundary := 60 * if PeakWindowActive(second / 60, start, end) then end else start;
    if second < boundary {
      assert delta == boundary - second;
    } else if boundary < second {
      assert (boundary - second + DAY_SECONDS) % DAY_SECONDS == boundary - second + DAY_SECONDS;
      assert delta == boundary - second + DAY_SECONDS;
    }
    if t <= delta {
      assert (second + t) % DAY_SECONDS == if second + t < DAY_SECONDS then second + t else second + t - DAY_SECONDS;
    }
  }

  /** The window in seconds. */
  lemma ActiveInSeconds(second: nat, start: nat, end: nat)
    ensures PeakWindowActive(second / 60, start, end)
         == if start < end then start * 60 <= second < end * 60 else second >= start * 60 || second < end * 60
  {
  }

  /** The backup is preferred exactly between the two times, across midnight when the first is the later one. */
  lemma PreferredInside(second: nat, start: nat, end: nat)
    requires second < 86400 && start < 1440 && end < 1440 && start != end
    ensures Preferred(second, start, end) == Backup
       <==> if start < end then 60 * start <= second < 60 * end else !(60 * end <= second < 60 * start)
  {
    ActiveInSeconds(second, start, end);
  }

  /** Whatever the window, the wait ends after at most a day, where the current part of it does. */
  lemma WaitEndsAtBoundary(second: nat, start: nat, end: nat)
    requires second < 86400 && start < 1440 && end < 1440
    ensures var delta := SecondsToNextTransition(second, start, end);
      && 1 <= delta <= 86400
      && (second + delta) % 86400 == 60 * if Preferred(second, start, end) == Backup then end else start
  {
    var boundary := 60 * if PeakWindowActive(second / 60, start, end) then end else start;
    if boundary > second {
      assert (boundary - second) % DAY_SECONDS == boundary - second;
    } else if boundary < second {
      assert (boundary - second) % DAY_SECONDS == boundary - second + DAY_SECONDS;
    }
  }

  // ---- The machine ----

  /** Thresholds are at least one; contents are what the DNS record holds for either target. */
  datatype Config = Config(failureThreshold: nat, recoveryThreshold: nat, primaryContent: nat, backupContent: nat)

  /** The stored row, and the record at the provider. */
  datatype State = State(target: Target, failures: nat, successes: nat, record: nat)

  /** What the outside world does during one check. */
  datatype Check = Check(preferred: Target, probeOk: bool, recordReadable: bool, updateAccepted: bool)

  function TargetFromContent(c: Config, content: nat): Option<Target> {
    if content == c.primaryContent then Some(Primary)
    else if content == c.backupContent then Some(Backup)
    else None
  }

  function DesiredContent(c: Config, target: Target): nat {
    if target == Primary then c.primaryContent else c.backupContent
  }

  function Evaluate(c: Config, target: Target, failures: nat, successes: nat, probeOk: bool,
                    preferred: Target): Option<Target> {
    if probeOk then
      if target == preferred.Other() && successes >= c.recoveryThreshold then Some(preferred) else None
    else
      if target == preferred && failures >= c.failureThreshold then Some(preferred.Other()) else None
  }

  function Switched(c: Config, s: State, target: Target, check: Check): State {
    if !check.recordReadable then s
    else if TargetFromContent(c, s.record) == Some(target) then s.(target := target)
    else if !check.updateAccepted then s
    else
      var content := DesiredContent(c, target);
      s.(record := content, target := TargetFromContent(c, content).GetOr(target))
  }

  function Counted(s: State, probeOk: bool): State {
    if probeOk then s.(successes := s.successes + 1, failures := 0) else s.(failures := s.failures + 1, successes := 0)
  }

  function Checked(c: Config, s: State, check: Check): State {
    var s' := Counted(s, check.probeOk);
    match Evaluate(c, s'.target, s'.failures, s'.successes, check.probeOk, check.preferred)
    case Some(target) => Switched(c, s', target, check)
    case None => s'
  }

  class DnsFailoverService {
    const config: Config
    var state: State

    constructor (config: Config, state: State)
      ensures this.config == config && this.state == state
    {
      this.config, this.state := config, state;
    }

    /** Count the probe and commit, then switch if the thresholds call for it. */
    method RunCheck(check: Check)
      modifies this
      ensures state == Checked(config, old(state), check)
    {
      if check.probeOk {
        state := state.(successes := state.successes + 1);
        state := state.(failures := 0);
      } else {
        state := state.(failures := state.failures + 1);
        state := state.(successes := 0);
      }
      var transition := Evaluate(config, state.target, state.failures, state.successes, check.probeOk, check.preferred);
      if transition.Some? {
        var ok := SwitchTarget(transition.value, check);
      }
    }

    /** Read the record; leave it alone if it already points there; otherwise update it. */
    method SwitchTarget(target: Target, check: Check) returns (ok: bool)
      modifies this
      ensures state == Switched(config, old(state), target, check)
    {
      if !check.recordReadable {
        return false;
      }
      if TargetFromContent(config, state.record) == Some(target) {
        state := state.(target := target);
        return true;
      }
      if !check.updateAccepted {
        return false;
      }
      state := state.(record := DesiredContent(config, target));
      var updated := TargetFromContent(config, state.record);
      state := state.(target := if updated.Some? then updated.value else target);
      ok := true;
    }
  }

  // ---- Runs ----

  /**
   The state and what happened on the way: switches away from the preferred target, back to it, and flips of
   the preference.
   */
  datatype Run = Run(state: State, failovers: nat, recoveries: nat, flips: nat)

  function After(c: Config, start: State, checks: seq<Check>, n: nat): Run
    requires n <= |checks|
  {
    if n == 0 then Run(start, 0, 0, 0) else
      var before := After(c, start, checks, n - 1);
      var check := checks[n - 1];
      var s := Checked(c, before.state, check);
      Run(s,
          before.failovers + if Moves(c, before.state, check) && !check.probeOk then 1 else 0,
          before.recoveries + if Moves(c, before.state, check) && check.probeOk then 1 else 0,
          before.flips + if n > 1 && checks[n - 2].preferred != check.preferred then 1 else 0)
  }

  /** A transition is due and the provider carries it out. */
  predicate Moves(c: Config, s: State, check: Check) {
    var s' := Counted(s, check.probeOk);
    var transition := Evaluate(c, s'.target, s'.failures, s'.successes, check.probeOk, check.preferred);
    transition.Some? && check.recordReadable
    && (TargetFromContent(c, s'.record) == transition || check.updateAccepted)
  }

  function TrailingRun(checks: seq<Check>, n: nat, ok: bool): nat
    requires n <= |checks|
  {
    if n == 0 || checks[n - 1].probeOk != ok then 0 else TrailingRun(checks, n - 1, ok) + 1
  }

  /** From zero, the stored counters are the lengths of the trailing probe runs. */
  lemma {:induction false} CountersAreTrailingRuns(c: Config, start: State, checks: seq<Check>, n: nat)
    requires n <= |checks| && start.failures == start.successes == 0
    ensures var s := After(c, start, checks, n).state;
      s.failures == TrailingRun(checks, n, false) && s.successes == TrailingRun(checks, n, true)
  {
    if n > 0 { CountersAreTrailingRuns(c, start, checks, n - 1); }
  }

  // ---- When the machine switches ----

  /** Each of the last `k` of the first `n` probes had this result. */
  predicate LastProbes(checks: seq<Check>, n: nat, k: nat, ok: bool)
    requires n <= |checks|
  {
    k <= n && forall i :: n - k <= i < n ==> checks[i].probeOk == ok
  }

  lemma {:induction false} TrailingRunIsLast(checks: seq<Check>, n: nat, k: nat, ok: bool)
    requires n <= |checks|
    ensures TrailingRun(checks, n, ok) >= k <==> LastProbes(checks, n, k, ok)
  {
    if k > 0 && n > 0 {
      TrailingRunIsLast(checks, n - 1, k - 1, ok);
      if LastProbes(checks, n - 1, k - 1, ok) && checks[n - 1].probeOk == ok {
        forall i | n - k <= i < n ensures checks[i].probeOk == ok { }
      }
      if LastProbes(checks, n, k, ok) { assert checks[n - 1].probeOk == ok; }
    }
  }

  /** The same for one check from any state, by what it had counted. */
  lemma CheckSwitchesExactly(c: Config, s: State, check: Check)
    requires c.primaryContent != c.backupContent && check.recordReadable && check.updateAccepted
    ensures var after := Checked(c, s, check);
      && (s.target == check.preferred ==>
            (after.target != check.preferred <==> !check.probeOk && s.failures + 1 >= c.failureThreshold))
      && (s.target != check.preferred ==>
            (after.target == check.preferred <==> check.probeOk && s.successes + 1 >= c.recoveryThreshold))
      && after.failures == (if check.probeOk then 0 else s.failures + 1)
      && after.successes == (if check.probeOk then s.successes + 1 else 0)
  {
  }

  /**
   With distinct contents and a provider that works, for either preference: the check leaves the preferred target
   exactly when the last `failureThreshold` probes failed, it returns to it exactly when the last
   `recoveryThreshold` succeeded, and otherwise the target stays; whenever it switches, the record is the content
   of the new target. With a provider that fails, nothing but the counters changes.
   */
  lemma SwitchesExactly(c: Config, start: State, checks: seq<Check>, n: nat)
    requires c.primaryContent != c.backupContent && c.failureThreshold > 0 && c.recoveryThreshold > 0
    requires start.failures == start.successes == 0 && 0 < n <= |checks|
    ensures var before, after := After(c, start, checks, n - 1).state, After(c, start, checks, n).state;
      var check := checks[n - 1];
      && (check.recordReadable && check.updateAccepted ==>
            && (before.target == check.preferred ==>
                  (after.target != check.preferred <==> LastProbes(checks, n, c.failureThreshold, false)))
            && (before.target != check.preferred ==>
                  (after.target == check.preferred <==> LastProbes(checks, n, c.recoveryThreshold, true)))
            && (after.target != before.target ==>
                  after.record == match after.target case Primary => c.primaryContent case Backup => c.backupContent))
      && (after.target == before.target ==> after.record == before.record)
      && (!check.recordReadable ==> after.target == before.target && after.record == before.record)
  {
    CountersAreTrailingRuns(c, start, checks, n);
    CountersAreTrailingRuns(c, start, checks, n - 1);
    TrailingRunIsLast(checks, n, c.failureThreshold, false);
    TrailingRunIsLast(checks, n, c.recoveryThreshold, true);
  }

  /** How far the machine has come towards its next switch, in checks. */
  function Progress(c: Config, s: State, preferred: Target): nat {
    if s.target == preferred then Min(s.failures, c.failureThreshold) else Min(s.successes, c.recoveryThreshold)
  }

  /** One check pays for at most one step of progress, and a switch uses up a whole threshold. */
  lemma CheckPays(c: Config, s: State, check: Check)
    requires c.primaryContent != c.backupContent
    ensures var spent := if !Moves(c, s, check) then 0
                         else if check.probeOk then c.recoveryThreshold else c.failureThreshold;
      Progress(c, Checked(c, s, check), check.preferred) + spent <= Progress(c, s, check.preferred) + 1
  {
  }

  /**
   What flapping costs: each failover `failureThreshold` checks and each recovery `recoveryThreshold`, except
   what the start had already counted, and that every flip of the preference may give one switch for free.
   */
  ghost predicate Bounded(c: Config, start: State, checks: seq<Check>, n: nat)
    requires 0 < n <= |checks|
  {
    var r := After(c, start, checks, n);
    Cost(c, r) <= n + Progress(c, start, checks[0].preferred) + FreeSwitches(c, r)
  }

  function Cost(c: Config, r: Run): nat {
    r.failovers * c.failureThreshold + r.recoveries * c.recoveryThreshold
  }

  function FreeSwitches(c: Config, r: Run): nat {
    r.flips * Max(c.failureThreshold, c.recoveryThreshold)
  }

  /** Flapping is bounded over all checks, whatever the provider does, if the two contents differ. */
  lemma {:induction false} FlappingIsBounded(c: Config, start: State, checks: seq<Check>, n: nat)
    requires c.primaryContent != c.backupContent && 0 < n <= |checks|
    ensures Bounded(c, start, checks, n)
    ensures var r := After(c, start, checks, n);
      Cost(c, r) + Progress(c, r.state, checks[n - 1].preferred)
      <= n + Progress(c, start, checks[0].preferred) + FreeSwitches(c, r)
  {
    var check := checks[n - 1];
    var before := After(c, start, checks, n - 1);
    CheckPays(c, before.state, check);
    var flips := n > 1 && checks[n - 2].preferred != check.preferred;
    SwitchesAdd(c, before, Moves(c, before.state, check), check.probeOk, flips);
    if n > 1 { FlappingIsBounded(c, start, checks, n - 1); }
  }

  lemma SwitchesAdd(c: Config, r: Run, moves: bool, ok: bool, flips: bool)
    ensures (r.failovers + if moves && !ok then 1 else 0) * c.failureThreshold
         == r.failovers * c.failureThreshold + if moves && !ok then c.failureThreshold else 0
    ensures (r.recoveries + if moves && ok then 1 else 0) * c.recoveryThreshold
         == r.recoveries * c.recoveryThreshold + if moves && ok then c.recoveryThreshold else 0
    ensures var m := Max(c.failureThreshold, c.recoveryThreshold);
      (r.flips + if flips then 1 else 0) * m == r.flips * m + if flips then m else 0
  {
  }

  // ---- Equal contents ----

  /** How far a recovery has come. With equal contents the machine never leaves the primary again. */
  function RecoveryProgress(c: Config, s: State): nat {
    if s.target == Primary then 0 else Min(s.successes, c.recoveryThreshold)
  }

  lemma EqualContentsPay(c: Config, s: State, check: Check)
    requires c.primaryContent == c.backupContent && c.failureThreshold <= 1 && check.preferred == Primary
    ensures var spent := if !Moves(c, s, check) then 0
                         else if check.probeOk then c.recoveryThreshold else c.failureThreshold;
      RecoveryProgress(c, Checked(c, s, check)) + spent <= RecoveryProgress(c, s) + 1
  {
  }

  lemma {:induction false} EqualContentsBounded(c: Config, start: State, checks: seq<Check>, n: nat)
    requires c.primaryContent == c.backupContent && c.failureThreshold <= 1 && n <= |checks|
    requires forall i :: 0 <= i < |checks| ==> checks[i].preferred == Primary
    ensures var r := After(c, start, checks, n);
      Cost(c, r) + RecoveryProgress(c, r.state) <= n + RecoveryProgress(c, start)
  {
    if n > 0 {
      EqualContentsBounded(c, start, checks, n - 1);
      var before, check := After(c, start, checks, n - 1), checks[n - 1];
      EqualContentsPay(c, before.state, check);
      SwitchesAdd(c, before, Moves(c, before.state, check), check.probeOk, false);
    }
  }

  /** With thresholds of at most one, every switch costs at most the check that made it. */
  lemma {:induction false} SmallThresholdsBounded(c: Config, start: State, checks: seq<Check>, n: nat)
    requires c.failureThreshold <= 1 && c.recoveryThreshold <= 1 && n <= |checks|
    ensures Cost(c, After(c, start, checks, n)) <= n
  {
    if n > 0 {
      SmallThresholdsBounded(c, start, checks, n - 1);
      var before, check := After(c, start, checks, n - 1), checks[n - 1];
      SwitchesAdd(c, before, Moves(c, before.state, check), check.probeOk, false);
    }
  }

  /**
   With equal contents the record always reads as primary. If the preference is primary and probes fail, or
   it is backup and probes succeed, every check from the threshold on switches again.
   */
  lemma {:induction false} EqualContentsFlap(c: Config, ok: bool, checks: seq<Check>, n: nat)
    requires c.primaryContent == c.backupContent && n <= |checks|
    requires forall i :: 0 <= i < |checks| ==> checks[i] == Check(if ok then Backup else Primary, ok, true, true)
    requires (if ok then c.recoveryThreshold else c.failureThreshold) > 0
    ensures var r := After(c, State(Primary, 0, 0, c.primaryContent), checks, n);
      var switches := Surplus(n, if ok then c.recoveryThreshold else c.failureThreshold);
      && r.state == State(Primary, if ok then 0 else n, if ok then n else 0, c.primaryContent) && r.flips == 0
      && r.failovers == (if ok then 0 else switches) && r.recoveries == if ok then switches else 0
  {
    if n > 0 { EqualContentsFlap(c, ok, checks, n - 1); }
  }

  function Surplus(n: nat, threshold: nat): nat {
    if n < threshold then 0 else n - threshold + 1
  }

  /** Two switches in one check more than the threshold cost more than those checks. */
  lemma FlapIsUnbounded(c: Config, ok: bool) returns (checks: seq<Check>)
    requires c.primaryContent == c.backupContent && (if ok then c.recoveryThreshold else c.failureThreshold) > 1
    ensures 0 < |checks| && forall i :: 0 <= i < |checks| ==> checks[i].preferred == if ok then Backup else Primary
    ensures !Bounded(c, State(Primary, 0, 0, c.primaryContent), checks, |checks|)
  {
    var threshold := if ok then c.recoveryThreshold else c.failureThreshold;
    checks := seq(threshold + 1, i => Check(if ok then Backup else Primary, ok, true, true));
    EqualContentsFlap(c, ok, checks, |checks|);
    var r := After(c, State(Primary, 0, 0, c.primaryContent), checks, |checks|);
    assert Cost(c, r) == 2 * threshold;
    assert FreeSwitches(c, r) == 0;
  }

  /** With the preference fixed to primary, flapping is bounded for all starts and runs exactly then. */
  lemma BoundedForPrimaryExactly(c: Config)
    ensures (forall start, checks: seq<Check>, n ::
               0 < n <= |checks| && (forall i :: 0 <= i < |checks| ==> checks[i].preferred == Primary)
               ==> Bounded(c, start, checks, n))
       <==> c.primaryContent != c.backupContent || c.failureThreshold <= 1
  {
    if c.primaryContent != c.backupContent || c.failureThreshold <= 1 {
      forall start, checks: seq<Check>, n
        | 0 < n <= |checks| && forall i :: 0 <= i < |checks| ==> checks[i].preferred == Primary
        ensures Bounded(c, start, checks, n)
      {
        if c.primaryContent != c.backupContent {
          FlappingIsBounded(c, start, checks, n);
        } else {
          EqualContentsBounded(c, start, checks, n);
        }
      }
    } else {
      var checks := FlapIsUnbounded(c, false);
    }
  }

  /** With any preference, changing or not, it is bounded for all starts and runs exactly then. */
  lemma BoundedExactly(c: Config)
    ensures (forall start, checks: seq<Check>, n :: 0 < n <= |checks| ==> Bounded(c, start, checks, n))
       <==> c.primaryContent != c.backupContent || (c.failureThreshold <= 1 && c.recoveryThreshold <= 1)
  {
    if c.primaryContent != c.backupContent || (c.failureThreshold <= 1 && c.recoveryThreshold <= 1) {
      forall start, checks: seq<Check>, n | 0 < n <= |checks| ensures Bounded(c, start, checks, n) {
        if c.primaryContent != c.backupContent {
          FlappingIsBounded(c, start, checks, n);
        } else {
          SmallThresholdsBounded(c, start, checks, n);
        }
      }
    } else {
      var checks := FlapIsUnbounded(c, c.failureThreshold <= 1);
    }
  }
}
