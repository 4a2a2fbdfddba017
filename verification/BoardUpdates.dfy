/** What the board health worker really does to the tasks, logged or not: the source counts and logs a block only
    when nothing throws after the task has been written. */
module BoardUpdates {
  import opened BoardHealth
  import UtcDate
  import opened Wrappers

  // ---------- the tasks that a tick really blocks ----------

  /** One update of a task to blocked: when, and the action that records it, if any does. */
  datatype Turn = Turn(task: string, at: int, id: Option<nat>)

  /** The candidate's task is updated to blocked. */
  predicate Updates(config: Config, b: Board, c: Candidate, now: int, dryRun: bool) {
    !c.excluded && !dryRun && c.effect != Refused && !Recent(b.log, AutoBlock, c.task, config.rollbackWindowMs, now)
  }

  function After(config: Config, w: Work, c: Candidate, now: int, dryRun: bool): Work {
    if c.excluded then w else Block(config, w, c, now, dryRun)
  }

  function TurnOf(b: Board, c: Candidate, now: int): Turn {
    Turn(c.task, now, if c.effect == ThrewAfterUpdate then None else Some(b.nextId))
  }

  /** The updates that the loop over the stale tasks makes. */
  function Turns(config: Config, w: Work, cs: seq<Candidate>, now: int, dryRun: bool): seq<Turn>
    decreases |cs|
  {
    if cs == [] || w.count >= config.maxActionsPerTick then []
    else
      var rest := Turns(config, After(config, w, cs[0], now, dryRun), cs[1..], now, dryRun);
      if Updates(config, w.board, cs[0], now, dryRun) then [TurnOf(w.board, cs[0], now)] + rest else rest
  }

  function TasksOf(turns: seq<Turn>): set<string> {
    set i | 0 <= i < |turns| :: turns[i].task
  }

  function Unlogged(turns: seq<Turn>): nat {
    if turns == [] then 0 else (if turns[0].id == None then 1 else 0) + Unlogged(turns[1..])
  }

  /** The candidates whose update throws after the task has been written. */
  function Throwing(cs: seq<Candidate>): nat {
    if cs == [] then 0 else (if !cs[0].excluded && cs[0].effect == ThrewAfterUpdate then 1 else 0) + Throwing(cs[1..])
  }

  lemma AfterUpdates(config: Config, w: Work, c: Candidate, now: int, dryRun: bool)
    ensures var t := After(config, w, c, now, dryRun);
            t.board.tasks == (if Updates(config, w.board, c, now, dryRun) then w.board.tasks[c.task := Blocked] else w.board.tasks)
            && (!dryRun ==> t.count == w.count + if Updates(config, w.board, c, now, dryRun) && c.effect == Done then 1 else 0)
  {
    hide Recent;
  }

  lemma TasksOfCons(t: Turn, rest: seq<Turn>)
    ensures TasksOf([t] + rest) == {t.task} + TasksOf(rest)
  {
    var all := [t] + rest;
    assert forall i | 0 <= i < |rest| :: all[i + 1] == rest[i];
    forall x | x in {t.task} + TasksOf(rest)
      ensures x in TasksOf(all)
    {
      if x == t.task {
        assert all[0].task == x;
      } else {
        var i :| 0 <= i < |rest| && rest[i].task == x;
        assert all[i + 1].task == x;
      }
    }
  }

  /** The updates are exactly what happens to the tasks. */
  lemma {:induction false} TurnsAreUpdates(config: Config, w: Work, cs: seq<Candidate>, now: int, dryRun: bool)
    ensures var t := BlockAll(config, w, cs, now, dryRun);
            t.board.tasks.Keys == w.board.tasks.Keys + TasksOf(Turns(config, w, cs, now, dryRun))
            && forall x | x in t.board.tasks ::
                 t.board.tasks[x] == if x in TasksOf(Turns(config, w, cs, now, dryRun)) then Blocked else w.board.tasks[x]
    decreases |cs|
  {
    hide Block, Updates, TasksOf;
    if cs == [] || w.count >= config.maxActionsPerTick {
      NoTurns();
    } else {
      AfterUpdates(config, w, cs[0], now, dryRun);
      TurnsAreUpdates(config, After(config, w, cs[0], now, dryRun), cs[1..], now, dryRun);
      TasksOfCons(TurnOf(w.board, cs[0], now), Turns(config, After(config, w, cs[0], now, dryRun), cs[1..], now, dryRun));
    }
  }

  lemma NoTurns()
    ensures TasksOf([]) == {}
  {
  }

  /** Each update is either counted against the budget or throws after it. */
  lemma {:induction false} TurnsAreCountedOrThrowing(config: Config, w: Work, cs: seq<Candidate>, now: int)
    ensures var turns := Turns(config, w, cs, now, false);
            |turns| == BlockAll(config, w, cs, now, false).count - w.count + Unlogged(turns) && Unlogged(turns) <= Throwing(cs)
    decreases |cs|
  {
    hide Block, Recent;
    if cs != [] && w.count < config.maxActionsPerTick {
      AfterUpdates(config, w, cs[0], now, false);
      TurnsAreCountedOrThrowing(config, After(config, w, cs[0], now, false), cs[1..], now);
    }
  }

  function StaleOf(b: Board, i: TickInput): seq<Candidate> {
    Having(b.tasks, i.inactive, {Doing})
  }

  function TickTurns(config: Config, b: Board, i: TickInput): seq<Turn> {
    if Skips(config, i) then [] else Turns(config, Work(b, 0), StaleOf(b, i), i.now, i.dryRun)
  }

  /** The tasks that were in progress and are now blocked. */
  ghost function TurnedToBlocked(before: map<string, Status>, after: map<string, Status>): set<string> {
    set t | t in before && t in after && before[t] == Doing && after[t] == Blocked
  }

  lemma {:induction false} TurnsOfCandidates(config: Config, w: Work, cs: seq<Candidate>, now: int, dryRun: bool)
    ensures forall x | x in TasksOf(Turns(config, w, cs, now, dryRun)) :: exists k :: 0 <= k < |cs| && cs[k].task == x
    decreases |cs|
  {
    hide Block, Updates, TasksOf;
    if cs == [] || w.count >= config.maxActionsPerTick {
      NoTurns();
    } else {
      var rest := Turns(config, After(config, w, cs[0], now, dryRun), cs[1..], now, dryRun);
      TurnsOfCandidates(config, After(config, w, cs[0], now, dryRun), cs[1..], now, dryRun);
      TasksOfCons(TurnOf(w.board, cs[0], now), rest);
      forall x | x in TasksOf(Turns(config, w, cs, now, dryRun))
        ensures exists k :: 0 <= k < |cs| && cs[k].task == x
      {
        if x in TasksOf(rest) {
          var k :| 0 <= k < |cs[1..]| && cs[1..][k].task == x;
          assert cs[k + 1].task == x;
        } else {
          assert cs[0].task == x;
        }
      }
    }
  }

  /** The tasks of the updates were in progress, and are blocked once the budgeted policies have run. */
  lemma PoliciesTurnTasks(config: Config, b: Board, i: TickInput)
    requires !Skips(config, i)
    ensures forall x | x in TasksOf(TickTurns(config, b, i)) :: x in b.tasks && b.tasks[x] == Doing
    ensures var tasks := AddOthers(Policies(config, b, i).board, i.others, i.now).tasks;
            tasks.Keys == b.tasks.Keys
            && forall x | x in tasks :: tasks[x] == if x in TasksOf(TickTurns(config, b, i)) then Blocked else b.tasks[x]
  {
    hide BlockAll, SuggestAll, AddOthers, Having, Turns, TasksOf, Skips;
    var stale := StaleOf(b, i);
    var w := BlockAll(config, Work(b, 0), stale, i.now, i.dryRun);
    HavingMeans(b.tasks, i.inactive, {Doing});
    TurnsAreUpdates(config, Work(b, 0), stale, i.now, i.dryRun);
    TurnsOfCandidates(config, Work(b, 0), stale, i.now, i.dryRun);
    SuggestAllKeepsTasks(config, w, Having(w.board.tasks, i.abandoned, {Todo, Blocked}), i.now, i.dryRun);
    OthersKeepTasks(Policies(config, b, i).board, i.others, i.now);
    forall x | x in TasksOf(Turns(config, Work(b, 0), stale, i.now, i.dryRun))
      ensures x in b.tasks && b.tasks[x] == Doing
    {
      var k :| 0 <= k < |stale| && stale[k].task == x;
      assert IsIn(b.tasks, stale[k].task, {Doing});
    }
  }

  /** The working contract of the tick requeues the task: it is unresponsive and has not just been blocked. */
  predicate RequeuedBy(config: Config, b: Board, i: TickInput, x: string) {
    !Skips(config, i) && !i.dryRun && x in i.unresponsive
    && x in b.tasks && b.tasks[x] == Doing && x !in TasksOf(TickTurns(config, b, i))
  }

  /**
   * Everything that one tick does to the tasks: those of its updates are blocked, the other unresponsive
   * ones in progress are requeued, new ones are created, and nothing else changes.
   */
  lemma TickChangesTasks(config: Config, b: Board, i: TickInput)
    ensures var after := Ticked(config, b, i).tasks;
            (forall x | x in b.tasks :: x in after
              && after[x] == if x in TasksOf(TickTurns(config, b, i)) then Blocked
                             else if RequeuedBy(config, b, i, x) then Todo else b.tasks[x])
            && (forall x | x !in b.tasks :: x in after <==> !Skips(config, i) && !i.dryRun && x in i.created)
            && (forall x | x in after && x !in b.tasks :: after[x] == Todo)
  {
    hide Policies, AddOthers, TickTurns, TasksOf, Skips;
    if Skips(config, i) {
      NoTurns();
      assert TickTurns(config, b, i) == [] by { SkippedHasNoTurns(config, b, i); }
    } else {
      PoliciesTurnTasks(config, b, i);
    }
  }

  lemma SkippedHasNoTurns(config: Config, b: Board, i: TickInput)
    requires Skips(config, i)
    ensures TickTurns(config, b, i) == []
  {
  }

  /** The tasks that a tick turns to blocked are those of its updates. */
  lemma TickTurnsTasks(config: Config, b: Board, i: TickInput)
    ensures TurnedToBlocked(b.tasks, Ticked(config, b, i).tasks) == TasksOf(TickTurns(config, b, i))
  {
    hide Ticked, TickTurns, TasksOf, Skips;
    TickChangesTasks(config, b, i);
    if Skips(config, i) {
      NoTurns();
      SkippedHasNoTurns(config, b, i);
    } else {
      PoliciesTurnTasks(config, b, i);
    }
  }

  lemma {:induction false} TasksSize(turns: seq<Turn>)
    ensures |TasksOf(turns)| <= |turns|
  {
    hide TasksOf;
    if turns == [] {
      NoTurns();
    } else {
      TasksSize(turns[1..]);
      TasksOfCons(turns[0], turns[1..]);
      assert turns == [turns[0]] + turns[1..];
    }
  }

  /**
   * One tick turns at most as many tasks to blocked as the budget and the updates that throw
   * afterwards among the stale tasks together; so if none throws it keeps the budget.
   */
  lemma TickBlocksWithinBudget(config: Config, b: Board, i: TickInput)
    ensures |TurnedToBlocked(b.tasks, Ticked(config, b, i).tasks)| <= Budget(config) + Throwing(StaleOf(b, i))
  {
    hide BlockAll, Having, Turns, TasksOf, Skips, TurnedToBlocked, Ticked, Throwing, Unlogged;
    TickTurnsTasks(config, b, i);
    TasksSize(TickTurns(config, b, i));
    if !Skips(config, i) && !i.dryRun {
      BlockAllCounts(config, b, Work(b, 0), StaleOf(b, i), i.now, false);
      TurnsAreCountedOrThrowing(config, Work(b, 0), StaleOf(b, i), i.now);
    } else if i.dryRun {
      DryRunHasNoTurns(config, Work(b, 0), StaleOf(b, i), i.now);
    }
  }

  lemma {:induction false} DryRunHasNoTurns(config: Config, w: Work, cs: seq<Candidate>, now: int)
    ensures Turns(config, w, cs, now, true) == []
    decreases |cs|
  {
    hide Recent, Block;
    if cs != [] && w.count < config.maxActionsPerTick {
      DryRunHasNoTurns(config, After(config, w, cs[0], now, true), cs[1..], now);
    }
  }

  // ---------- exactly when a tick exceeds its budget ----------

  /** The stale candidates that would be blocked if the budget had no end. */
  function Eligible(config: Config, log: seq<Action>, cs: seq<Candidate>, now: int): seq<Candidate> {
    if cs == [] then []
    else if cs[0].excluded || cs[0].effect == Refused || Recent(log, AutoBlock, cs[0].task, config.rollbackWindowMs, now)
    then Eligible(config, log, cs[1..], now)
    else [cs[0]] + Eligible(config, log, cs[1..], now)
  }

  /** The candidates up to the `n`-th whose update does not throw. */
  function Cut(cs: seq<Candidate>, n: int): seq<Candidate> {
    if cs == [] || n <= 0 then [] else [cs[0]] + Cut(cs[1..], if cs[0].effect == ThrewAfterUpdate then n else n - 1)
  }

  ghost predicate DistinctTasks(cs: seq<Candidate>) {
    forall i, j | 0 <= i < j < |cs| :: cs[i].task != cs[j].task
  }

  lemma RecentElsewhere(log: seq<Action>, a: Action, task: string, window: int, now: int)
    requires a.task != task
    ensures Recent(log + [a], AutoBlock, task, window, now) <==> Recent(log, AutoBlock, task, window, now)
  {
    var all := log + [a];
    if Recent(log, AutoBlock, task, window, now) {
      var i :| 0 <= i < |log| && StillCounts(log[i], AutoBlock, task, window, now);
      assert StillCounts(all[i], AutoBlock, task, window, now);
    }
  }

  lemma {:induction false} EligibleElsewhere(config: Config, log: seq<Action>, a: Action, cs: seq<Candidate>, now: int)
    requires forall i | 0 <= i < |cs| :: cs[i].task != a.task
    ensures Eligible(config, log + [a], cs, now) == Eligible(config, log, cs, now)
  {
    hide Recent;
    if cs != [] {
      RecentElsewhere(log, a, cs[0].task, config.rollbackWindowMs, now);
      EligibleElsewhere(config, log, a, cs[1..], now);
    }
  }

  /** For distinct tasks the updates are those of the eligible candidates, up to the budget. */
  lemma {:induction false} TurnsAreCut(config: Config, w: Work, cs: seq<Candidate>, now: int)
    requires DistinctTasks(cs)
    ensures var turns := Turns(config, w, cs, now, false);
            var cut := Cut(Eligible(config, w.board.log, cs, now), config.maxActionsPerTick - w.count);
            |turns| == |cut| && forall k | 0 <= k < |turns| :: turns[k].task == cut[k].task
    decreases |cs|
  {
    hide Recent;
    if cs != [] && w.count < config.maxActionsPerTick {
      var c, t := cs[0], After(config, w, cs[0], now, false);
      TurnsAreCut(config, t, cs[1..], now);
      if Updates(config, w.board, c, now, false) && c.effect == Done {
        EligibleElsewhere(config, w.board.log, Fresh(w.board, AutoBlock, c.task, StatusOf(w.board, c.task), now), cs[1..], now);
      }
      var e := Eligible(config, w.board.log, cs, now);
      if Updates(config, w.board, c, now, false) {
        assert e[1..] == Eligible(config, w.board.log, cs[1..], now);
      }
    }
  }

  lemma {:induction false} CutSize(cs: seq<Candidate>, n: nat)
    ensures |Cut(cs, n)| <= |cs| && (|Cut(cs, n)| >= n || |Cut(cs, n)| == |cs|)
    ensures |Cut(cs, n)| > n <==> |cs| > n && exists k :: 0 <= k < n && cs[k].effect == ThrewAfterUpdate
  {
    if cs != [] && n > 0 {
      if cs[0].effect == ThrewAfterUpdate {
        CutSize(cs[1..], n);
      } else {
        CutSize(cs[1..], n - 1);
        if exists k :: 0 <= k < n - 1 < |cs[1..]| && cs[1..][k].effect == ThrewAfterUpdate {
          var k :| 0 <= k < n - 1 < |cs[1..]| && cs[1..][k].effect == ThrewAfterUpdate;
          assert cs[k + 1].effect == ThrewAfterUpdate;
        }
        if |cs| > n && exists k :: 0 <= k < n && cs[k].effect == ThrewAfterUpdate {
          var k :| 0 <= k < n && cs[k].effect == ThrewAfterUpdate;
          assert cs[1..][k - 1].effect == ThrewAfterUpdate;
        }
      }
    }
  }

  lemma {:induction false} CutIsPrefix(cs: seq<Candidate>, n: int)
    ensures |Cut(cs, n)| <= |cs| && Cut(cs, n) == cs[..|Cut(cs, n)|]
  {
    if cs != [] && n > 0 {
      CutIsPrefix(cs[1..], if cs[0].effect == ThrewAfterUpdate then n else n - 1);
    }
  }

  lemma {:induction false} EligibleDistinct(config: Config, log: seq<Action>, cs: seq<Candidate>, now: int)
    requires DistinctTasks(cs)
    ensures DistinctTasks(Eligible(config, log, cs, now))
    ensures forall i | 0 <= i < |Eligible(config, log, cs, now)| :: Eligible(config, log, cs, now)[i] in cs
  {
    hide Recent;
    if cs != [] {
      EligibleDistinct(config, log, cs[1..], now);
      assert cs == [cs[0]] + cs[1..];
      forall c | c in cs[1..]
        ensures c.task != cs[0].task
      {
        var k :| 0 <= k < |cs[1..]| && cs[1..][k] == c;
        assert cs[k + 1] == c;
      }
    }
  }

  lemma {:induction false} DistinctTasksSize(turns: seq<Turn>)
    requires forall i, j | 0 <= i < j < |turns| :: turns[i].task != turns[j].task
    ensures |TasksOf(turns)| == |turns|
  {
    if turns == [] {
      NoTurns();
    } else {
      DistinctTasksSize(turns[1..]);
      TasksOfCons(turns[0], turns[1..]);
      assert turns == [turns[0]] + turns[1..];
      assert turns[0].task !in TasksOf(turns[1..]);
    }
  }

  /**
   * Exactly when one tick turns more tasks to blocked than its budget allows: the policies run, more
   * tasks than that are eligible, and the update of one of the first `maxActionsPerTick` throws.
   */
  lemma BudgetExceededIff(config: Config, b: Board, i: TickInput)
    requires DistinctTasks(StaleOf(b, i))
    ensures |TurnedToBlocked(b.tasks, Ticked(config, b, i).tasks)| > Budget(config)
       <==> !i.dryRun && !Skips(config, i) && ThrowsEarly(config, b, i)
  {
    hide Turns, TasksOf, Skips, TurnedToBlocked, Ticked, Eligible, Cut, Having;
    var eligible := Eligible(config, b.log, StaleOf(b, i), i.now);
    var turns, cut := TickTurns(config, b, i), Cut(eligible, config.maxActionsPerTick);
    TickTurnsTasks(config, b, i);
    TasksSize(turns);
    if i.dryRun {
      DryRunHasNoTurns(config, Work(b, 0), StaleOf(b, i), i.now);
    } else if !Skips(config, i) {
      TurnsAreCut(config, Work(b, 0), StaleOf(b, i), i.now);
      EligibleDistinct(config, b.log, StaleOf(b, i), i.now);
      CutIsPrefix(eligible, config.maxActionsPerTick);
      assert forall k | 0 <= k < |cut| :: cut[k] == eligible[k];
      DistinctTasksSize(turns);
      CutSize(eligible, Budget(config));
      assert Cut(eligible, Budget(config)) == cut by {
        NegativeCut(eligible, config.maxActionsPerTick);
      }
    }
  }

  /** More tasks than the budget allows are eligible, and the update of one of the first of them throws. */
  predicate ThrowsEarly(config: Config, b: Board, i: TickInput) {
    var eligible := Eligible(config, b.log, StaleOf(b, i), i.now);
    |eligible| > Budget(config) && exists k | 0 <= k < Budget(config) :: eligible[k].effect == ThrewAfterUpdate
  }

  lemma NegativeCut(cs: seq<Candidate>, n: int)
    ensures Cut(cs, if n < 0 then 0 else n) == Cut(cs, n)
  {
  }

  /** A tick that shows it: with a budget of one, two throwing updates block two tasks and log nothing. */
  lemma ThrowingUpdatesExceedBudget()
    ensures var config, b := Config(0, 1, 0, 0), Board(map["x" := Doing, "y" := Doing], [], [], 0);
            var cs := [Candidate("x", false, ThrewAfterUpdate), Candidate("y", false, ThrewAfterUpdate)];
            var after := Ticked(config, b, TickInput(0, 0, false, true, cs, [], [], [], []));
            after.tasks == map["x" := Blocked, "y" := Blocked] && after.log == []
  {
    var config, b := Config(0, 1, 0, 0), Board(map["x" := Doing, "y" := Doing], [], [], 0);
    var cs := [Candidate("x", false, ThrewAfterUpdate), Candidate("y", false, ThrewAfterUpdate)];
    var i := TickInput(0, 0, false, true, cs, [], [], [], []);
    assert cs[1..] == [cs[1]] && cs[1..][1..] == [];
    assert Having(b.tasks, cs[1..], {Doing}) == [cs[1]];
    assert Having(b.tasks, cs, {Doing}) == cs;
    var w := Block(config, Work(b, 0), cs[0], 0, false);
    assert BlockAll(config, w, [cs[1]], 0, false) == Block(config, w, cs[1], 0, false);
    assert Policies(config, b, i) == Block(config, w, cs[1], 0, false);
  }

  // ---------- the updates over a run ----------

  /** All updates of tasks to blocked that the ticks of a run make. */
  function RunTurns(config: Config, b: Board, ops: seq<Op>): seq<Turn> {
    if ops == [] then []
    else
      var front, op := ops[..|ops| - 1], ops[|ops| - 1];
      RunTurns(config, b, front) + if op.TickOp? then TickTurns(config, Run(config, b, front), op.input) else []
  }

  /** The action records the update. */
  predicate StandsFor(a: Action, t: Turn) {
    t.id == Some(a.id) && a.kind == AutoBlock && a.task == t.task && a.appliedAt == t.at
  }

  ghost predicate RecordedIn(b: Board, t: Turn) {
    t.id.Some? ==> exists k :: 0 <= k < |All(b)| && StandsFor(All(b)[k], t)
  }

  /** The update has been rolled back. */
  ghost predicate UndoneIn(b: Board, t: Turn) {
    exists k :: 0 <= k < |All(b)| && StandsFor(All(b)[k], t) && All(b)[k].rolledBack
  }

  ghost predicate TooSoon(t: Turn, u: Turn, window: int) {
    t.task == u.task && u.at - t.at < window
  }

  /** An update sooner than the window after another one of the task: the earlier was not logged, or was rolled back. */
  ghost predicate SoonOnlyAfter(b: Board, turns: seq<Turn>, window: int) {
    forall i, j | 0 <= i < j < |turns| && TooSoon(turns[i], turns[j], window) :: turns[i].id == None || UndoneIn(b, turns[i])
  }

  ghost predicate Accounted(b: Board, turns: seq<Turn>, window: int, now: int) {
    && (forall i | 0 <= i < |turns| :: RecordedIn(b, turns[i]) && turns[i].at <= now)
    && SoonOnlyAfter(b, turns, window)
  }

  /** `c` is `a`, possibly rolled back since. */
  predicate Succeeds(a: Action, c: Action) {
    a.id == c.id && a.kind == c.kind && a.task == c.task && a.appliedAt == c.appliedAt && (a.rolledBack ==> c.rolledBack)
  }

  ghost predicate HeldBy(t: Board, a: Action) {
    exists l :: 0 <= l < |All(t)| && Succeeds(a, All(t)[l])
  }

  ghost predicate NothingForgotten(b: Board, t: Board) {
    forall k | 0 <= k < |All(b)| :: HeldBy(t, All(b)[k])
  }

  lemma RecordStays(b: Board, t: Board, u: Turn)
    requires NothingForgotten(b, t)
    ensures RecordedIn(b, u) ==> RecordedIn(t, u)
    ensures UndoneIn(b, u) ==> UndoneIn(t, u)
  {
    if u.id.Some? && RecordedIn(b, u) {
      var k :| 0 <= k < |All(b)| && StandsFor(All(b)[k], u);
      assert HeldBy(t, All(b)[k]);
      var l :| 0 <= l < |All(t)| && Succeeds(All(b)[k], All(t)[l]);
      assert StandsFor(All(t)[l], u);
    }
    if UndoneIn(b, u) {
      var k :| 0 <= k < |All(b)| && StandsFor(All(b)[k], u) && All(b)[k].rolledBack;
      assert HeldBy(t, All(b)[k]);
      var l :| 0 <= l < |All(t)| && Succeeds(All(b)[k], All(t)[l]);
      assert StandsFor(All(t)[l], u) && All(t)[l].rolledBack;
    }
  }

  lemma AccountedStays(b: Board, t: Board, turns: seq<Turn>, window: int, now: int, later: int)
    requires Accounted(b, turns, window, now) && NothingForgotten(b, t) && now <= later
    ensures Accounted(t, turns, window, later)
  {
    hide NothingForgotten, RecordedIn, UndoneIn, TooSoon;
    forall i | 0 <= i < |turns|
      ensures RecordedIn(b, turns[i]) ==> RecordedIn(t, turns[i])
      ensures UndoneIn(b, turns[i]) ==> UndoneIn(t, turns[i])
    {
      RecordStays(b, t, turns[i]);
    }
  }

  lemma LogForgetsNothing(b: Board, t: Board)
    requires t.pruned == b.pruned && b.log <= t.log
    ensures NothingForgotten(b, t)
  {
    forall k | 0 <= k < |All(b)|
      ensures HeldBy(t, All(b)[k])
    {
      assert All(t)[k] == All(b)[k];
      assert Succeeds(All(b)[k], All(t)[k]);
    }
  }

  lemma RollbackForgetsNothing(config: Config, b: Board, id: nat, who: string, now: int, accepted: bool)
    ensures NothingForgotten(b, RolledBack(config, b, id, who, now, accepted))
  {
    hide CanRollBack;
    var t := RolledBack(config, b, id, who, now, accepted);
    forall k | 0 <= k < |All(b)|
      ensures HeldBy(t, All(b)[k])
    {
      assert Succeeds(All(b)[k], All(t)[k]);
    }
  }

  lemma PruneForgetsNothing(b: Board, days: int, now: int)
    ensures NothingForgotten(b, Pruned(b, days, now))
  {
    hide Since, Before;
    var t := Pruned(b, days, now);
    PartsOf(b.log, now - days * UtcDate.MS_PER_DAY);
    forall k | 0 <= k < |All(b)|
      ensures HeldBy(t, All(b)[k])
    {
      var a := All(b)[k];
      assert k < |b.pruned| ==> a == b.pruned[k] && a == t.pruned[k];
      assert k >= |b.pruned| ==> a == b.log[k - |b.pruned|];
      assert a in t.pruned || a in t.log;
      assert a in All(t);
      var l :| 0 <= l < |All(t)| && All(t)[l] == a;
      assert Succeeds(a, All(t)[l]);
    }
  }

  /** An earlier update that is neither unlogged nor rolled back stands in the way of a new one. */
  lemma StandingInTheWay(b: Board, t: Turn, window: int, now: int)
    requires RecordedIn(b, t) && t.id.Some? && !UndoneIn(b, t) && now - t.at < window
    requires PrunedAreOld(b, window, now)
    ensures Recent(b.log, AutoBlock, t.task, window, now)
  {
    assert forall k | 0 <= k < |b.pruned| :: All(b)[k] == b.pruned[k];
    var k :| 0 <= k < |All(b)| && StandsFor(All(b)[k], t);
    assert !All(b)[k].rolledBack;
    assert k >= |b.pruned|;
    assert StillCounts(b.log[k - |b.pruned|], AutoBlock, t.task, window, now);
  }

  lemma NewTurnAccounted(b: Board, t: Board, turns: seq<Turn>, u: Turn, window: int, now: int)
    requires Accounted(b, turns, window, now) && NothingForgotten(b, t) && PrunedAreOld(b, window, now)
    requires !Recent(b.log, AutoBlock, u.task, window, now) && u.at == now && RecordedIn(t, u)
    ensures Accounted(t, turns + [u], window, now)
  {
    hide NothingForgotten, RecordedIn, UndoneIn, Recent, PrunedAreOld;
    AccountedStays(b, t, turns, window, now, now);
    var all := turns + [u];
    forall i | 0 <= i < |turns| && TooSoon(turns[i], u, window)
      ensures turns[i].id == None || UndoneIn(t, turns[i])
    {
      RecordStays(b, t, turns[i]);
      if turns[i].id.Some? && !UndoneIn(b, turns[i]) {
        StandingInTheWay(b, turns[i], window, now);
      }
    }
    forall i, j | 0 <= i < j < |all| && TooSoon(all[i], all[j], window)
      ensures all[i].id == None || UndoneIn(t, all[i])
    {
      if j < |turns| {
        assert TooSoon(turns[i], turns[j], window);
      }
    }
  }

  lemma AfterAccounted(config: Config, w: Work, c: Candidate, now: int, dryRun: bool, turns: seq<Turn>)
    requires Accounted(w.board, turns, config.rollbackWindowMs, now) && Kept(w.board, AutoBlock, config.rollbackWindowMs, now)
    ensures var t := After(config, w, c, now, dryRun).board;
            var more := if Updates(config, w.board, c, now, dryRun) then [TurnOf(w.board, c, now)] else [];
            Accounted(t, turns + more, config.rollbackWindowMs, now)
  {
    hide Recent, Accounted, NothingForgotten, RecordedIn;
    var b, t := w.board, After(config, w, c, now, dryRun).board;
    assert b.log <= t.log && t.pruned == b.pruned;
    LogForgetsNothing(b, t);
    if Updates(config, b, c, now, dryRun) {
      var u := TurnOf(b, c, now);
      assert RecordedIn(t, u) by {
        UpdateRecorded(config, w, c, now, dryRun);
      }
      NewTurnAccounted(b, t, turns, u, config.rollbackWindowMs, now);
    } else {
      AccountedStays(b, t, turns, config.rollbackWindowMs, now, now);
      assert turns + [] == turns;
    }
  }

  lemma UpdateRecorded(config: Config, w: Work, c: Candidate, now: int, dryRun: bool)
    requires Updates(config, w.board, c, now, dryRun)
    ensures RecordedIn(After(config, w, c, now, dryRun).board, TurnOf(w.board, c, now))
  {
    hide Recent;
    var t := After(config, w, c, now, dryRun).board;
    if c.effect == Done {
      assert StandsFor(All(t)[|All(t)| - 1], TurnOf(w.board, c, now));
    }
  }

  lemma {:induction false} TurnsAccounted(config: Config, w: Work, cs: seq<Candidate>, now: int, dryRun: bool,
      turns: seq<Turn>)
    requires Accounted(w.board, turns, config.rollbackWindowMs, now) && Kept(w.board, AutoBlock, config.rollbackWindowMs, now)
    ensures var t := BlockAll(config, w, cs, now, dryRun).board;
            Accounted(t, turns + Turns(config, w, cs, now, dryRun), config.rollbackWindowMs, now)
    decreases |cs|
  {
    hide Accounted, Kept, Updates, Block;
    if cs == [] || w.count >= config.maxActionsPerTick {
      assert turns + [] == turns;
    } else {
      var c, t := cs[0], After(config, w, cs[0], now, dryRun);
      var more := turns + if Updates(config, w.board, c, now, dryRun) then [TurnOf(w.board, c, now)] else [];
      AfterAccounted(config, w, c, now, dryRun, turns);
      BlockKeeps(config, w, c, now, dryRun, AutoBlock);
      TurnsAccounted(config, t, cs[1..], now, dryRun, more);
      assert more + Turns(config, t, cs[1..], now, dryRun) == turns + Turns(config, w, cs, now, dryRun);
    }
  }

  lemma {:induction false} SuggestAllAppends(config: Config, w: Work, cs: seq<Candidate>, now: int, dryRun: bool)
    ensures var t := SuggestAll(config, w, cs, now, dryRun).board; w.board.log <= t.log && t.pruned == w.board.pruned
    decreases |cs|
  {
    hide Recent;
    if cs != [] && w.count < config.maxActionsPerTick {
      SuggestAllAppends(config, if cs[0].excluded then w else Suggest(w, cs[0], now, dryRun), cs[1..], now, dryRun);
    }
  }

  lemma {:induction false} OthersAppend(b: Board, names: seq<string>, now: int)
    ensures var t := AddOthers(b, names, now); b.log <= t.log && t.pruned == b.pruned
  {
    if names != [] {
      OthersAppend(b, names[..|names| - 1], now);
    }
  }

  lemma TickAccounted(config: Config, b: Board, i: TickInput, turns: seq<Turn>)
    requires Accounted(b, turns, config.rollbackWindowMs, i.now) && Kept(b, AutoBlock, config.rollbackWindowMs, i.now)
    ensures Accounted(Ticked(config, b, i), turns + TickTurns(config, b, i), config.rollbackWindowMs, i.now)
  {
    hide Accounted, Kept, BlockAll, SuggestAll, AddOthers, Having, Turns, Skips, NothingForgotten;
    if Skips(config, i) {
      assert turns + [] == turns;
    } else {
      var w := BlockAll(config, Work(b, 0), StaleOf(b, i), i.now, i.dryRun);
      var last := Policies(config, b, i).board;
      TurnsAccounted(config, Work(b, 0), StaleOf(b, i), i.now, i.dryRun, turns);
      SuggestAllAppends(config, w, Having(w.board.tasks, i.abandoned, {Todo, Blocked}), i.now, i.dryRun);
      OthersAppend(last, i.others, i.now);
      LogForgetsNothing(w.board, Ticked(config, b, i));
      AccountedStays(w.board, Ticked(config, b, i), turns + TickTurns(config, b, i), config.rollbackWindowMs, i.now, i.now);
    }
  }

  lemma {:induction false} RunAccounted(config: Config, tasks: map<string, Status>, ops: seq<Op>, now: int)
    requires Timely(ops) && PrunesLate(ops, config.rollbackWindowMs) && (ops != [] ==> TimeOf(ops[|ops| - 1]) <= now)
    ensures var b := Board(tasks, [], [], 0);
            Accounted(Run(config, b, ops), RunTurns(config, b, ops), config.rollbackWindowMs, now)
  {
    hide Accounted, Kept, Ticked, RolledBack, Pruned, TickTurns, NothingForgotten;
    var start := Board(tasks, [], [], 0);
    if ops == [] {
      NoTurnsYet(start, config.rollbackWindowMs, now);
    } else {
      var n := |ops| - 1;
      var b, turns, op, at := Run(config, start, ops[..n]), RunTurns(config, start, ops[..n]), ops[n], TimeOf(ops[n]);
      assert n > 0 ==> TimeOf(ops[n - 1]) <= at;
      RunAccounted(config, tasks, ops[..n], at);
      RunKeeps(config, tasks, ops[..n], AutoBlock);
      assert Kept(b, AutoBlock, config.rollbackWindowMs, at);
      match op
      case TickOp(i) =>
        TickAccounted(config, b, i, turns);
        LogForgetsNothing(Ticked(config, b, i), Ticked(config, b, i));
        AccountedStays(Ticked(config, b, i), Ticked(config, b, i), turns + TickTurns(config, b, i), config.rollbackWindowMs, at, now);
      case RollbackOp(id, who, t, accepted) =>
        RollbackForgetsNothing(config, b, id, who, t, accepted);
        AccountedStays(b, Apply(config, b, op), turns, config.rollbackWindowMs, at, now);
        assert turns + [] == turns;
      case PruneOp(days, t) =>
        PruneForgetsNothing(b, days, t);
        AccountedStays(b, Apply(config, b, op), turns, config.rollbackWindowMs, at, now);
        assert turns + [] == turns;
      case TaskChanges(task, status, t) =>
        LogForgetsNothing(b, Apply(config, b, op));
        AccountedStays(b, Apply(config, b, op), turns, config.rollbackWindowMs, at, now);
        assert turns + [] == turns;
    }
  }

  lemma NoTurnsYet(b: Board, window: int, now: int)
    ensures Accounted(b, [], window, now)
  {
  }

  /**
   * Over any run, a task is updated to blocked again within the window only if the earlier
   * update threw afterwards, so that it was never logged, or was rolled back.
   */
  lemma UpdatesApart(config: Config, tasks: map<string, Status>, ops: seq<Op>, i: nat, j: nat)
    requires Timely(ops) && PrunesLate(ops, config.rollbackWindowMs)
    requires i < j < |RunTurns(config, Board(tasks, [], [], 0), ops)|
    requires var turns := RunTurns(config, Board(tasks, [], [], 0), ops);
             TooSoon(turns[i], turns[j], config.rollbackWindowMs)
    ensures var b := Board(tasks, [], [], 0);
            RunTurns(config, b, ops)[i].id == None || UndoneIn(Run(config, b, ops), RunTurns(config, b, ops)[i])
  {
    hide Run, RunTurns, RecordedIn, UndoneIn, TooSoon, Timely, PrunesLate;
    RunAccounted(config, tasks, ops, if ops == [] then 0 else TimeOf(ops[|ops| - 1]));
  }

  /**
   * A block keeps the task from being blocked again within the window exactly if nothing throws after
   * the update, or nothing is updated because it is a dry one; if something throws, the log is as
   * before, so there is nothing to roll back either.
   */
  lemma BlockHoldsIff(config: Config, w: Work, c: Candidate, now: int, dryRun: bool, later: int)
    requires Blockable(config, w.board, c, now, dryRun) && now <= later && later - now < config.rollbackWindowMs
    ensures Recent(Block(config, w, c, now, dryRun).board.log, AutoBlock, c.task, config.rollbackWindowMs, later)
       <==> dryRun || c.effect == Done
    ensures !dryRun && c.effect == ThrewAfterUpdate ==>
        Block(config, w, c, now, dryRun) == w.(board := w.board.(tasks := w.board.tasks[c.task := Blocked]))
  {
    var t := Block(config, w, c, now, dryRun).board;
    if dryRun || c.effect == Done {
      assert StillCounts(t.log[|t.log| - 1], AutoBlock, c.task, config.rollbackWindowMs, later);
    } else {
      forall k | 0 <= k < |w.board.log|
        ensures !StillCounts(w.board.log[k], AutoBlock, c.task, config.rollbackWindowMs, later)
      {
        assert !StillCounts(w.board.log[k], AutoBlock, c.task, config.rollbackWindowMs, now);
      }
    }
  }

  /** The candidate is not excluded or refused, and no block of its task stands within the window. */
  predicate Blockable(config: Config, b: Board, c: Candidate, now: int, dryRun: bool) {
    !c.excluded && (dryRun || c.effect != Refused) && !Recent(b.log, AutoBlock, c.task, config.rollbackWindowMs, now)
  }

  /** A dry block changes no task, and yet no real block of the task goes through within the window. */
  lemma DryBlockStandsInTheWay(config: Config, w: Work, c: Candidate, now: int, d: Candidate, later: int)
    requires Blockable(config, w.board, c, now, true) && now <= later && later - now < config.rollbackWindowMs
    requires d.task == c.task
    ensures var dry := Block(config, w, c, now, true);
            dry.board.tasks == w.board.tasks && Block(config, dry, d, later, false) == dry
  {
    BlockHoldsIff(config, w, c, now, true, later);
  }
}
