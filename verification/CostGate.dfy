/** The cost gate: usage log (src/cost-enforcement.ts) and cap check (src/agent-config.ts).
    Costs are real numbers; the clock is an argument. */
module CostGate {
  import opened UtcDate
  import opened Wrappers

  datatype Usage = Usage(agent: string, cost: real, timestamp: int)

  datatype Config = Config(model: Option<string>, fallback: Option<string>, capDaily: Option<real>, capMonthly: Option<real>)

  /** A field of an update: left out, or given (possibly as absent). */
  datatype Change<T> = Unchanged | To(value: T)

  datatype Update = Update(
    model: Change<Option<string>>, fallback: Change<Option<string>>,
    capDaily: Change<Option<real>>, capMonthly: Change<Option<real>>)

  function Changed<T>(old_: T, c: Change<T>): T {
    if c.Unchanged? then old_ else c.value
  }

  function Merged(c: Config, u: Update): Config {
    Config(Changed(c.model, u.model), Changed(c.fallback, u.fallback), Changed(c.capDaily, u.capDaily), Changed(c.capMonthly, u.capMonthly))
  }

  datatype Action = Allow | Warn | Downgrade | Deny

  datatype CapResult = CapResult(
    allowed: bool, dailyRemaining: Option<real>, monthlyRemaining: Option<real>, action: Action,
    model: Option<string>, fallback: Option<string>)

  datatype Enforcement = Enforcement(
    allowed: bool, action: Action, model: Option<string>, effectiveModel: Option<string>, dailySpend: real, monthlySpend: real)

  // ---------- the verdict on one cap ----------

  function Severity(a: Action): int {
    match a
    case Allow => 0
    case Warn => 1
    case Downgrade => 2
    case Deny => 3
  }

  /** The verdict of one cap on its own. */
  function Verdict(cap: Option<real>, spend: real): Action {
    if cap.None? then Allow
    else
      var remaining := cap.value - spend;
      if remaining <= 0.0 then Deny
      else if remaining < cap.value * 0.1 then Downgrade
      else if remaining < cap.value * 0.2 then Warn
      else Allow
  }

  function Worse(a: Action, b: Action): Action {
    if Severity(a) >= Severity(b) then a else b
  }

  /** The caps of an agent without a configuration are absent. */
  function ConfigOf(configs: map<string, Config>, agent: string): Config {
    if agent in configs then configs[agent] else Config(None, None, None, None)
  }

  function CapAction(config: Config, daily: real, monthly: real): Action {
    Worse(Verdict(config.capDaily, daily), Verdict(config.capMonthly, monthly))
  }

  function Remaining(cap: Option<real>, spend: real): Option<real> {
    if cap.None? then None else Some(cap.value - spend)
  }

  /** Some cap of the agent is given and used up to the share. */
  predicate Uses(config: Config, daily: real, monthly: real, share: real, strictly: bool) {
    || (config.capDaily.Some? && Passes(daily, share * config.capDaily.value, strictly))
    || (config.capMonthly.Some? && Passes(monthly, share * config.capMonthly.value, strictly))
  }

  predicate Passes(spend: real, limit: real, strictly: bool) {
    if strictly then spend > limit else spend >= limit
  }

  /** The action by what is spent: at a whole cap the call is denied, above nine tenths downgraded, above eight
      tenths warned of; the worst that any cap says counts. */
  lemma ActionBySpend(config: Config, daily: real, monthly: real)
    ensures CapAction(config, daily, monthly)
         == if Uses(config, daily, monthly, 1.0, false) then Deny
            else if Uses(config, daily, monthly, 0.9, true) then Downgrade
            else if Uses(config, daily, monthly, 0.8, true) then Warn
            else Allow
  {
  }

  /** More spending never makes the action milder. */
  lemma ActionMonotone(config: Config, daily: real, monthly: real, daily': real, monthly': real)
    requires daily <= daily' && monthly <= monthly'
    ensures Severity(CapAction(config, daily, monthly)) <= Severity(CapAction(config, daily', monthly'))
  {
    VerdictMonotone(config.capDaily, daily, daily');
    VerdictMonotone(config.capMonthly, monthly, monthly');
  }

  lemma VerdictMonotone(cap: Option<real>, spend: real, spend': real)
    requires spend <= spend'
    ensures Severity(Verdict(cap, spend)) <= Severity(Verdict(cap, spend'))
  {
  }

  // ---------- the usage log ----------

  function Spend(log: seq<Usage>, agent: string, since: int): real {
    if log == [] then 0.0
    else
      var last := log[|log| - 1];
      Spend(log[..|log| - 1], agent, since) + (if last.agent == agent && last.timestamp >= since then last.cost else 0.0)
  }

  function Purged(log: seq<Usage>, cutoff: int): seq<Usage> {
    if log == [] then []
    else
      var last := log[|log| - 1];
      var front := Purged(log[..|log| - 1], cutoff);
      if last.timestamp < cutoff then front else front + [last]
  }

  function DailySpend(log: seq<Usage>, agent: string, now: int): real {
    Spend(log, agent, DayStart(now))
  }

  function MonthlySpend(log: seq<Usage>, agent: string, now: int): real {
    Spend(log, agent, MonthStart(now))
  }

  function ActionAt(config: Config, log: seq<Usage>, agent: string, now: int): Action {
    CapAction(config, DailySpend(log, agent, now), MonthlySpend(log, agent, now))
  }

  /** A denied call has no model, a downgraded one the fallback if there is one. */
  function EffectiveModel(config: Config, action: Action): Option<string> {
    if action == Deny then None
    else if action == Downgrade && config.fallback.Some? then config.fallback
    else config.model
  }

  /** The model by what is spent: none at a whole cap, the fallback above nine tenths of one, if there is a fallback. */
  lemma ModelBySpend(config: Config, daily: real, monthly: real)
    ensures EffectiveModel(config, CapAction(config, daily, monthly))
         == if Uses(config, daily, monthly, 1.0, false) then None
            else if Uses(config, daily, monthly, 0.9, true) && config.fallback.Some? then config.fallback
            else config.model
  {
    hide CapAction, Uses;
    ActionBySpend(config, daily, monthly);
  }

  class CostStore {
    var log: seq<Usage>
    var configs: map<string, Config>

    constructor ()
      ensures log == [] && configs == map[]
    {
      log, configs := [], map[];
    }

    method SetAgentConfig(agent: string, update: Update)
      modifies this`configs
      ensures configs == old(configs)[agent := Merged(ConfigOf(old(configs), agent), update)]
    {
      var config := if agent in configs then configs[agent] else Config(None, None, None, None);
      configs := configs[agent := Merged(config, update)];
    }

    method DeleteAgentConfig(agent: string) returns (deleted: bool)
      modifies this`configs
      ensures deleted == (agent in old(configs))
      ensures configs == old(configs) - {agent}
    {
      deleted := agent in configs;
      configs := configs - {agent};
    }

    method RecordUsage(u: Usage)
      modifies this`log
      ensures log == old(log) + [u]
    {
      log := log + [u];
    }

    method GetAgentSpend(agent: string, since: int) returns (total: real)
      ensures total == Spend(log, agent, since)
    {
      total := 0.0;
      for i := 0 to |log|
        invariant total == Spend(log[..i], agent, since)
      {
        assert log[..i + 1][..i] == log[..i];
        if log[i].agent == agent && log[i].timestamp >= since {
          total := total + log[i].cost;
        }
      }
      assert log[..|log|] == log;
    }

    /** The action is the more severe of the verdicts on the two caps. */
    method CheckCostCap(agent: string, daily: real, monthly: real) returns (r: CapResult)
      ensures r.action == CapAction(ConfigOf(configs, agent), daily, monthly)
      ensures r.allowed <==> r.action != Deny
      ensures r.dailyRemaining == Remaining(ConfigOf(configs, agent).capDaily, daily)
      ensures r.monthlyRemaining == Remaining(ConfigOf(configs, agent).capMonthly, monthly)
      ensures ConfigOf(configs, agent).capDaily.Some? ==>
          r.dailyRemaining == Some(ConfigOf(configs, agent).capDaily.value - daily)
      ensures ConfigOf(configs, agent).capMonthly.Some? ==>
          r.monthlyRemaining == Some(ConfigOf(configs, agent).capMonthly.value - monthly)
      ensures r.model == ConfigOf(configs, agent).model && r.fallback == ConfigOf(configs, agent).fallback
    {
      if agent !in configs {
        return CapResult(true, None, None, Allow, None, None);
      }
      var config := configs[agent];
      var action := Allow;
      var dailyRemaining, monthlyRemaining := None, None;
      if config.capDaily.Some? {
        var cap := config.capDaily.value;
        var remaining := cap - daily;
        dailyRemaining := Some(remaining);
        if remaining <= 0.0 {
          action := Deny;
        } else if remaining < cap * 0.1 {
          action := Downgrade;
        } else if remaining < cap * 0.2 {
          action := if action == Allow then Warn else action;
        }
      }
      if config.capMonthly.Some? {
        var cap := config.capMonthly.value;
        var remaining := cap - monthly;
        monthlyRemaining := Some(remaining);
        if remaining <= 0.0 {
          action := Deny;
        } else if remaining < cap * 0.1 && action != Deny {
          action := Downgrade;
        } else if remaining < cap * 0.2 && action == Allow {
          action := Warn;
        }
      }
      r := CapResult(action != Deny, dailyRemaining, monthlyRemaining, action, config.model, config.fallback);
    }

    method EnforcePolicy(agent: string, now: int) returns (r: Enforcement)
      ensures r.action == ActionAt(ConfigOf(configs, agent), log, agent, now)
      ensures r.allowed <==> r.action != Deny
      ensures r.dailySpend == DailySpend(log, agent, now) && r.monthlySpend == MonthlySpend(log, agent, now)
      ensures r.effectiveModel == EffectiveModel(ConfigOf(configs, agent), r.action)
      ensures r.model == ConfigOf(configs, agent).model
    {
      hide DayStart, MonthStart, Verdict;
      var daily := GetAgentSpend(agent, DayStart(now));
      var monthly := GetAgentSpend(agent, MonthStart(now));
      var result := CheckCostCap(agent, daily, monthly);
      var effective := result.model;
      match result.action {
        case Deny => effective := None;
        case Downgrade => effective := if result.fallback.Some? then result.fallback else result.model;
        case Warn =>
        case Allow =>
      }
      r := Enforcement(result.allowed, result.action, result.model, effective, daily, monthly);
    }

    method PurgeUsageLog(maxAgeDays: int, now: int) returns (removed: nat)
      modifies this`log
      ensures log == Purged(old(log), now - maxAgeDays * MS_PER_DAY)
      ensures removed == |old(log)| - |log|
    {
      var cutoff := now - maxAgeDays * MS_PER_DAY;
      var kept: seq<Usage> := [];
      removed := 0;
      for i := 0 to |log|
        invariant log == old(log)
        invariant kept == Purged(log[..i], cutoff) && removed == i - |kept|
      {
        assert log[..i + 1][..i] == log[..i];
        if log[i].timestamp < cutoff {
          removed := removed + 1;
        } else {
          kept := kept + [log[i]];
        }
      }
      assert log[..|log|] == log;
      log := kept;
    }
  }

  // ---------- sums ----------

  /** No cost of the agent stamped since then is negative. */
  ghost predicate NoRefunds(log: seq<Usage>, agent: string, since: int) {
    forall i | 0 <= i < |log| && log[i].agent == agent && log[i].timestamp >= since :: 0.0 <= log[i].cost
  }

  lemma {:induction false} SpendShrinks(log: seq<Usage>, agent: string, since: int, later: int)
    requires NoRefunds(log, agent, since) && since <= later
    ensures 0.0 <= Spend(log, agent, later) <= Spend(log, agent, since)
  {
    if log != [] {
      SpendShrinks(log[..|log| - 1], agent, since, later);
    }
  }

  lemma {:induction false} PurgeShrinks(log: seq<Usage>, cutoff: int, agent: string, since: int)
    requires NoRefunds(log, agent, since)
    ensures NoRefunds(Purged(log, cutoff), agent, since)
    ensures Spend(Purged(log, cutoff), agent, since) <= Spend(log, agent, since)
  {
    if log != [] {
      var front, last := log[..|log| - 1], log[|log| - 1];
      PurgeShrinks(front, cutoff, agent, since);
      if last.timestamp >= cutoff {
        assert (Purged(front, cutoff) + [last])[..|Purged(front, cutoff)|] == Purged(front, cutoff);
      }
    }
  }

  lemma {:induction false} PurgeKeepsSum(log: seq<Usage>, cutoff: int, agent: string, since: int)
    requires cutoff <= since
    ensures Spend(Purged(log, cutoff), agent, since) == Spend(log, agent, since)
  {
    if log != [] {
      var front, last := log[..|log| - 1], log[|log| - 1];
      PurgeKeepsSum(front, cutoff, agent, since);
      if last.timestamp >= cutoff {
        assert (Purged(front, cutoff) + [last])[..|Purged(front, cutoff)|] == Purged(front, cutoff);
      }
    }
  }

  /** Purging what is at least 31 days old changes no sum of the current day or month, whatever the costs are. */
  lemma PurgeKeepsSpends(log: seq<Usage>, agent: string, days: int, now: int)
    requires 31 <= days
    ensures DailySpend(Purged(log, now - days * MS_PER_DAY), agent, now) == DailySpend(log, agent, now)
    ensures MonthlySpend(Purged(log, now - days * MS_PER_DAY), agent, now) == MonthlySpend(log, agent, now)
  {
    hide DayStart, MonthStart;
    MonthStartBounds(now);
    PurgeKeepsSum(log, now - days * MS_PER_DAY, agent, DayStart(now));
    PurgeKeepsSum(log, now - days * MS_PER_DAY, agent, MonthStart(now));
  }

  // ---------- runs ----------

  /** `Start` asks the gate and makes the call when it is allowed; `Finish` records its usage, under any timestamp. */
  datatype Step =
    | Start
    | Finish(cost: real, timestamp: int)
    | OtherAgent(usage: Usage)
    | Purge(days: int)

  datatype Timed = Timed(at: int, step: Step)

  datatype State = State(log: seq<Usage>, inFlight: nat, now: int)

  function Next(config: Config, agent: string, s: State, t: Timed): State {
    match t.step
    case Start => State(s.log, if ActionAt(config, s.log, agent, t.at) != Deny then s.inFlight + 1 else s.inFlight, t.at)
    case Finish(cost, ts) =>
      State(s.log + [Usage(agent, cost, ts)], if s.inFlight > 0 then s.inFlight - 1 else 0, t.at)
    case OtherAgent(u) => State(s.log + [u], s.inFlight, t.at)
    case Purge(days) => State(Purged(s.log, t.at - days * MS_PER_DAY), s.inFlight, t.at)
  }

  /** What the callers promise: no call without the gate's leave, at most `k` calls at once, each costing 0 to `c`. */
  ghost predicate Permitted(agent: string, s: State, t: Timed, k: nat, c: real) {
    && s.now <= t.at
    && (t.step.Start? ==> s.inFlight < k)
    && (t.step.Finish? ==> s.inFlight > 0 && 0.0 <= t.step.cost <= c)
    && (t.step.OtherAgent? ==> t.step.usage.agent != agent)
  }

  function After(config: Config, agent: string, s: State, steps: seq<Timed>): State {
    if steps == [] then s
    else Next(config, agent, After(config, agent, s, steps[..|steps| - 1]), steps[|steps| - 1])
  }

  ghost predicate Orderly(config: Config, agent: string, s: State, steps: seq<Timed>, k: nat, c: real) {
    forall i | 0 <= i < |steps| :: Permitted(agent, After(config, agent, s, steps[..i]), steps[i], k, c)
  }

  function Max(a: real, b: real): real {
    if a >= b then a else b
  }

  /** What `n` calls cost at most. */
  function Exposure(n: nat, c: real): real {
    n as real * c
  }

  lemma ExposureSteps(n: nat, c: real)
    ensures Exposure(0, c) == 0.0 && Exposure(n + 1, c) == Exposure(n, c) + c
  {
    assert (n + 1) as real == n as real + 1.0;
  }

  lemma {:induction false} ExposureGrows(n: nat, k: nat, c: real)
    requires n <= k && 0.0 <= c
    ensures 0.0 <= Exposure(n, c) <= Exposure(k, c)
    decreases k
  {
    hide Exposure;
    if n < k {
      ExposureGrows(n, k - 1, c);
      ExposureSteps(k - 1, c);
    } else if n > 0 {
      ExposureGrows(n - 1, n - 1, c);
      ExposureSteps(n - 1, c);
    } else {
      ExposureSteps(0, c);
    }
  }

  /** The spend since `start`, together with the calls under way, is within the bound. */
  ghost predicate Within(log: seq<Usage>, agent: string, start: int, inFlight: nat, k: nat, c: real, base: real) {
    && NoRefunds(log, agent, start) && inFlight <= k
    && Spend(log, agent, start) + Exposure(inFlight, c) <= base + Exposure(k, c)
  }

  lemma SpendSnoc(log: seq<Usage>, u: Usage, agent: string, since: int)
    ensures Spend(log + [u], agent, since)
       == Spend(log, agent, since) + (if u.agent == agent && u.timestamp >= since then u.cost else 0.0)
  {
    assert (log + [u])[..|log|] == log;
  }

  lemma StepWithin(config: Config, agent: string, s: State, t: Timed, k: nat, c: real, base: real, start: int,
      later: int, cap: real)
    requires Within(s.log, agent, start, s.inFlight, k, c, base) && start <= later && 0.0 <= c
    requires Permitted(agent, s, t, k, c)
    requires t.step.Start? && Next(config, agent, s, t).inFlight > s.inFlight ==> Spend(s.log, agent, later) < cap
    requires cap <= base
    ensures Within(Next(config, agent, s, t).log, agent, later, Next(config, agent, s, t).inFlight, k, c, base)
  {
    hide Spend, Purged, ActionAt, Exposure;
    SpendShrinks(s.log, agent, start, later);
    match t.step
    case Start =>
      if Next(config, agent, s, t).inFlight > s.inFlight {
        ExposureGrows(s.inFlight + 1, k, c);
      }
    case Finish(cost, ts) =>
      SpendSnoc(s.log, Usage(agent, cost, ts), agent, later);
      ExposureSteps(s.inFlight - 1, c);
    case OtherAgent(u) =>
      SpendSnoc(s.log, u, agent, later);
    case Purge(days) =>
      PurgeShrinks(s.log, t.at - days * MS_PER_DAY, agent, later);
  }

  // ---------- the overshoot bound ----------

  datatype Window = Daily | Monthly

  function WindowStart(w: Window, t: int): int {
    if w == Daily then DayStart(t) else MonthStart(t)
  }

  function CapOf(config: Config, w: Window): Option<real> {
    if w == Daily then config.capDaily else config.capMonthly
  }

  lemma WindowMoves(w: Window, t: int, u: int)
    requires t <= u
    ensures WindowStart(w, t) <= WindowStart(w, u)
  {
    DayMonotone(t, u);
    MonthStartMonotone(t, u);
  }

  lemma AllowedIsBelowCap(config: Config, log: seq<Usage>, agent: string, now: int, w: Window)
    requires ActionAt(config, log, agent, now) != Deny && CapOf(config, w).Some?
    ensures Spend(log, agent, WindowStart(w, now)) < CapOf(config, w).value
  {
    hide Spend, DayStart, MonthStart;
  }

  lemma {:induction false} RunWithin(config: Config, agent: string, s: State, steps: seq<Timed>, k: nat, c: real,
      w: Window, base: real)
    requires Orderly(config, agent, s, steps, k, c) && 0.0 <= c && CapOf(config, w).Some? && CapOf(config, w).value <= base
    requires Within(s.log, agent, WindowStart(w, s.now), s.inFlight, k, c, base)
    ensures var e := After(config, agent, s, steps); Within(e.log, agent, WindowStart(w, e.now), e.inFlight, k, c, base)
  {
    hide Within, WindowStart, ActionAt, Permitted, CapOf;
    if steps != [] {
      var n := |steps| - 1;
      var before, t := After(config, agent, s, steps[..n]), steps[n];
      assert forall i | 0 <= i < n :: steps[..n][..i] == steps[..i];
      RunWithin(config, agent, s, steps[..n], k, c, w, base);
      assert Permitted(agent, before, t, k, c);
      assert before.now <= t.at by {
        PermittedMovesOn(agent, before, t, k, c);
      }
      WindowMoves(w, before.now, t.at);
      if t.step.Start? && Next(config, agent, before, t).inFlight > before.inFlight {
        AllowedIsBelowCap(config, before.log, agent, t.at, w);
      }
      StepWithin(config, agent, before, t, k, c, base, WindowStart(w, before.now), WindowStart(w, t.at), CapOf(config, w).value);
    }
  }

  lemma PermittedMovesOn(agent: string, s: State, t: Timed, k: nat, c: real)
    requires Permitted(agent, s, t, k, c)
    ensures s.now <= t.at
  {
  }

  /**
   * Whatever the calls do, the spend of the current day and of the current month stays within the
   * cap, or what was spent before the first call if that was more, plus the cost of the calls that
   * may be in flight at once; also later, when the day or the month has changed, and whatever negative
   * costs there are from before the present one.
   */
  lemma OvershootBound(config: Config, agent: string, s: State, steps: seq<Timed>, k: nat, c: real, w: Window,
      later: int)
    requires Orderly(config, agent, s, steps, k, c) && 0.0 <= c && CapOf(config, w).Some?
    requires NoRefunds(s.log, agent, WindowStart(w, s.now)) && s.inFlight == 0
    requires After(config, agent, s, steps).now <= later
    ensures Spend(After(config, agent, s, steps).log, agent, WindowStart(w, later))
         <= Max(CapOf(config, w).value, Spend(s.log, agent, WindowStart(w, s.now))) + Exposure(k, c)
  {
    hide Spend, WindowStart, Orderly, NoRefunds, Exposure;
    var base, e := Max(CapOf(config, w).value, Spend(s.log, agent, WindowStart(w, s.now))), After(config, agent, s, steps);
    ExposureGrows(0, k, c);
    ExposureSteps(0, c);
    RunWithin(config, agent, s, steps, k, c, w, base);
    WindowMoves(w, e.now, later);
    SpendShrinks(e.log, agent, WindowStart(w, e.now), WindowStart(w, later));
    ExposureGrows(e.inFlight, k, c);
  }

  // ---------- the bound is tight, and needs costs that are not negative ----------

  const BEGIN: Timed := Timed(0, Start)

  function Ended(c: real): Timed {
    Timed(0, Finish(c, 0))
  }

  /** `k` calls that all start before the first `j` of them finish. */
  function Burst(k: nat, j: nat, c: real): seq<Timed>
    decreases j, k
  {
    if j > 0 then Burst(k, j - 1, c) + [Ended(c)]
    else if k > 0 then Burst(k - 1, 0, c) + [BEGIN]
    else []
  }

  function DailyCap(cap: real): Config {
    Config(None, None, Some(cap), None)
  }

  function Before(spent: real): State {
    State([Usage("a", spent, 0)], 0, 0)
  }

  lemma OrderlySnoc(config: Config, s: State, steps: seq<Timed>, t: Timed, k: nat, c: real)
    requires Orderly(config, "a", s, steps, k, c) && Permitted("a", After(config, "a", s, steps), t, k, c)
    ensures Orderly(config, "a", s, steps + [t], k, c)
    ensures After(config, "a", s, steps + [t]) == Next(config, "a", After(config, "a", s, steps), t)
  {
    hide After, Next, Permitted;
    var all := steps + [t];
    assert all[..|steps|] == steps;
    forall i | 0 <= i < |all|
      ensures Permitted("a", After(config, "a", s, all[..i]), all[i], k, c)
    {
      if i < |steps| {
        assert all[..i] == steps[..i];
      }
    }
    AfterSnoc(config, s, steps, t);
  }

  lemma AfterSnoc(config: Config, s: State, steps: seq<Timed>, t: Timed)
    ensures After(config, "a", s, steps + [t]) == Next(config, "a", After(config, "a", s, steps), t)
  {
    assert (steps + [t])[..|steps|] == steps;
  }

  lemma BelowCapStarts(cap: real, log: seq<Usage>)
    requires Spend(log, "a", DayStart(0)) < cap
    ensures ActionAt(DailyCap(cap), log, "a", 0) != Deny
  {
    hide Spend, DayStart, MonthStart;
  }

  /** What a burst does: its calls are all let in, and each of those that finish adds its cost. */
  lemma {:induction false} BurstSpends(cap: real, spent: real, k: nat, j: nat, n: nat, c: real)
    requires spent < cap && 0.0 <= c && j <= k <= n
    ensures var e := After(DailyCap(cap), "a", Before(spent), Burst(k, j, c));
            Orderly(DailyCap(cap), "a", Before(spent), Burst(k, j, c), n, c)
            && e.inFlight == k - j && e.now == 0 && (j == 0 ==> e.log == Before(spent).log)
            && Spend(e.log, "a", DayStart(0)) == spent + Exposure(j, c)
    decreases j, k
  {
    hide ActionAt, Exposure, Spend, DailyCap, Orderly, After, Permitted;
    if j > 0 {
      BurstSpends(cap, spent, k, j - 1, n, c);
      var steps := Burst(k, j - 1, c);
      var e := After(DailyCap(cap), "a", Before(spent), steps);
      FinishPermitted(e, n, c);
      OrderlySnoc(DailyCap(cap), Before(spent), steps, Ended(c), n, c);
      SpendSnoc(e.log, Usage("a", c, 0), "a", DayStart(0));
      ExposureSteps(j - 1, c);
    } else if k > 0 {
      BurstSpends(cap, spent, k - 1, 0, n, c);
      var steps := Burst(k - 1, 0, c);
      var e := After(DailyCap(cap), "a", Before(spent), steps);
      StartPermitted(e, n, c);
      OrderlySnoc(DailyCap(cap), Before(spent), steps, BEGIN, n, c);
      ExposureSteps(0, c);
      BelowCapStarts(cap, e.log);
    } else {
      NothingStarted(cap, spent, n, c);
      ExposureSteps(0, c);
    }
  }

  lemma FinishPermitted(e: State, n: nat, c: real)
    requires e.inFlight > 0 && e.now == 0 && 0.0 <= c
    ensures Permitted("a", e, Ended(c), n, c)
  {
  }

  lemma StartPermitted(e: State, n: nat, c: real)
    requires e.inFlight < n && e.now == 0
    ensures Permitted("a", e, BEGIN, n, c)
  {
  }

  lemma NothingStarted(cap: real, spent: real, n: nat, c: real)
    ensures After(DailyCap(cap), "a", Before(spent), []) == Before(spent)
    ensures Orderly(DailyCap(cap), "a", Before(spent), [], n, c)
    ensures Spend(Before(spent).log, "a", DayStart(0)) == spent
  {
    var u := Usage("a", spent, 0);
    assert [] + [u] == [u];
    SpendSnoc([], u, "a", DayStart(0));
  }

  /** For every positive cap, every number of calls and every cost, some run comes as close to the bound as one
      likes. */
  lemma BoundIsTight(cap: real, k: nat, c: real, margin: real)
    requires 0.0 < cap && 0.0 <= c && 0.0 < margin
    ensures exists config: Config, s: State, steps ::
              && config.capDaily == Some(cap) && s.inFlight == 0
              && NoRefunds(s.log, "a", DayStart(s.now)) && DailySpend(s.log, "a", s.now) < cap
              && Orderly(config, "a", s, steps, k, c)
              && DailySpend(After(config, "a", s, steps).log, "a", 0) > cap + Exposure(k, c) - margin
  {
    hide Exposure, Spend, Orderly, After, DayStart;
    var gap := (if margin < cap then margin else cap) / 2.0;
    var config, s, steps := DailyCap(cap), Before(cap - gap), Burst(k, k, c);
    BurstSpends(cap, cap - gap, k, k, k, c);
    NothingStarted(cap, cap - gap, k, c);
    assert config.capDaily == Some(cap);
  }

  /** With a negative cost of the present day the bound can fail: that cost drops out of the day while one stamped
      ahead remains. */
  lemma RefundsBreakBound()
    ensures var log := [Usage("a", -100.0, 0), Usage("a", 50.0, MS_PER_DAY)];
            DailySpend(log, "a", 0) == -50.0 && DailySpend(log, "a", MS_PER_DAY) == 50.0
            && 50.0 > Max(10.0, DailySpend(log, "a", 0)) + Exposure(0, 0.0)
  {
    var u, v := Usage("a", -100.0, 0), Usage("a", 50.0, MS_PER_DAY);
    assert [] + [u] == [u] && [u] + [v] == [u, v];
    SpendSnoc([], u, "a", 0);
    SpendSnoc([u], v, "a", 0);
    SpendSnoc([], u, "a", MS_PER_DAY);
    SpendSnoc([u], v, "a", MS_PER_DAY);
    ExposureSteps(0, 0.0);
  }
}
