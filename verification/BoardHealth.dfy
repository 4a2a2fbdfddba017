/** The board health worker of src/boardHealthWorker.ts: automatic blocking, close suggestions,
    rollback and pruning over one audit log. */
module BoardHealth {
  import opened UtcDate
  import opened Wrappers

  datatype Status = Todo | Doing | Blocked | OtherStatus(name: string)

  datatype Kind = AutoBlock | SuggestClose | OtherKind(name: string)

  /** Ids are numbered; the source draws them at random. */
  datatype Action = Action(
    id: nat, kind: Kind, task: string, previous: Option<Status>, appliedAt: int,
    rolledBack: bool, rolledBackAt: Option<int>, rollbackBy: string)

  /** What the task manager does: `ThrewAfterUpdate` has written the task when recording its history throws. */
  datatype Effect = Done | Refused | ThrewAfterUpdate

  /** A task that is due for a policy; those of test runs are excluded. */
  datatype Candidate = Candidate(task: string, excluded: bool, effect: Effect)

  datatype Config = Config(rollbackWindowMs: int, maxActionsPerTick: int, quietStart: int, quietEnd: int)

  /** The tasks, the audit log, and the actions that were pruned from it. */
  datatype Board = Board(tasks: map<string, Status>, log: seq<Action>, pruned: seq<Action>, nextId: nat)

  /** `others` are the entries of the remaining policies, `unresponsive` the tasks whose warning by the working
      contract is overdue, `created` the new ids of the tasks that the continuity loop adds. */
  datatype TickInput = TickInput(
    now: int, hour: int, dryRun: bool, force: bool, inactive: seq<Candidate>, abandoned: seq<Candidate>,
    others: seq<string>, unresponsive: seq<string>, created: seq<string>)

  predicate IsQuiet(config: Config, hour: int) {
    if config.quietStart <= config.quietEnd then config.quietStart <= hour < config.quietEnd
    else hour >= config.quietStart || hour < config.quietEnd
  }

  predicate StillCounts(a: Action, kind: Kind, task: string, window: int, now: int) {
    a.task == task && a.kind == kind && !a.rolledBack && now - a.appliedAt < window
  }

  predicate Recent(log: seq<Action>, kind: Kind, task: string, window: int, now: int) {
    exists i | 0 <= i < |log| :: StillCounts(log[i], kind, task, window, now)
  }

  function Fresh(b: Board, kind: Kind, task: string, previous: Option<Status>, now: int): Action {
    Action(b.nextId, kind, task, previous, now, false, None, "")
  }

  function Logged(b: Board, a: Action): Board {
    b.(log := b.log + [a], nextId := b.nextId + 1)
  }

  // ---------- one tick ----------

  /** The board, and the actions counted against the budget so far. */
  datatype Work = Work(board: Board, count: nat)

  predicate IsIn(tasks: map<string, Status>, task: string, statuses: set<Status>) {
    task in tasks && tasks[task] in statuses
  }

  function Having(tasks: map<string, Status>, candidates: seq<Candidate>, statuses: set<Status>): seq<Candidate> {
    if candidates == [] then []
    else if IsIn(tasks, candidates[0].task, statuses) then [candidates[0]] + Having(tasks, candidates[1..], statuses)
    else Having(tasks, candidates[1..], statuses)
  }

  function StatusOf(b: Board, task: string): Option<Status> {
    if task in b.tasks then Some(b.tasks[task]) else None
  }

  function Block(config: Config, w: Work, c: Candidate, now: int, dryRun: bool): Work {
    var b := w.board;
    if Recent(b.log, AutoBlock, c.task, config.rollbackWindowMs, now) then w
    else if dryRun then Work(Logged(b, Fresh(b, AutoBlock, c.task, StatusOf(b, c.task), now)), w.count + 1)
    else if c.effect == Refused then w
    else
      var t := b.(tasks := b.tasks[c.task := Blocked]);
      if c.effect == ThrewAfterUpdate then w.(board := t)
      else Work(Logged(t, Fresh(b, AutoBlock, c.task, StatusOf(b, c.task), now)), w.count + 1)
  }

  function Suggest(w: Work, c: Candidate, now: int, dryRun: bool): Work {
    var b := w.board;
    if Recent(b.log, SuggestClose, c.task, MS_PER_DAY, now) then w
    else if !dryRun && c.effect != Done then w
    else Work(Logged(b, Fresh(b, SuggestClose, c.task, None, now)), w.count + 1)
  }

  function BlockAll(config: Config, w: Work, cs: seq<Candidate>, now: int, dryRun: bool): Work
    decreases |cs|
  {
    if cs == [] || w.count >= config.maxActionsPerTick then w
    else BlockAll(config, if cs[0].excluded then w else Block(config, w, cs[0], now, dryRun), cs[1..], now, dryRun)
  }

  function SuggestAll(config: Config, w: Work, cs: seq<Candidate>, now: int, dryRun: bool): Work
    decreases |cs|
  {
    if cs == [] || w.count >= config.maxActionsPerTick then w
    else SuggestAll(config, if cs[0].excluded then w else Suggest(w, cs[0], now, dryRun), cs[1..], now, dryRun)
  }

  /** What the remaining policies add to the log: entries of other kinds. */
  function AddOthers(b: Board, names: seq<string>, now: int): Board {
    if names == [] then b
    else
      var front := AddOthers(b, names[..|names| - 1], now);
      Logged(front, Fresh(front, OtherKind(names[|names| - 1]), "", None, now))
  }

  function Policies(config: Config, b: Board, i: TickInput): Work {
    var w := BlockAll(config, Work(b, 0), Having(b.tasks, i.inactive, {Doing}), i.now, i.dryRun);
    SuggestAll(config, w, Having(w.board.tasks, i.abandoned, {Todo, Blocked}), i.now, i.dryRun)
  }

  /** The working contract puts unresponsive tasks in progress back into the queue, without a log entry. */
  function Requeued(tasks: map<string, Status>, unresponsive: seq<string>): map<string, Status> {
    map t | t in tasks :: if tasks[t] == Doing && t in unresponsive then Todo else tasks[t]
  }

  /** The continuity loop creates tasks, under ids not in use. */
  function WithNew(tasks: map<string, Status>, created: seq<string>): map<string, Status> {
    map t | t in tasks.Keys + (set k | 0 <= k < |created| :: created[k]) :: if t in tasks then tasks[t] else Todo
  }

  /** The tasks after the working contract and the continuity loop, which a dry run leaves out. */
  function TasksAfter(tasks: map<string, Status>, i: TickInput): map<string, Status> {
    if i.dryRun then tasks else WithNew(Requeued(tasks, i.unresponsive), i.created)
  }

  predicate Skips(config: Config, i: TickInput) {
    !i.force && IsQuiet(config, i.hour)
  }

  function Ticked(config: Config, b: Board, i: TickInput): Board {
    if Skips(config, i) then b
    else
      var t := AddOthers(Policies(config, b, i).board, i.others, i.now);
      t.(tasks := TasksAfter(t.tasks, i))
  }

  // ---------- rollback and pruning ----------

  function IndexOf(log: seq<Action>, id: nat): (i: nat)
    ensures i <= |log| && (i < |log| ==> log[i].id == id)
    ensures forall j | 0 <= j < i :: log[j].id != id
  {
    if log == [] || log[0].id == id then 0 else 1 + IndexOf(log[1..], id)
  }

  /** The rollback is accepted; `accepted` is the task manager's answer. */
  predicate CanRollBack(config: Config, a: Action, now: int, accepted: bool) {
    && !a.rolledBack
    && now - a.appliedAt <= config.rollbackWindowMs
    && ((a.kind == AutoBlock && a.task != "" && a.previous.Some? && accepted) || a.kind == SuggestClose)
  }

  function Undone(a: Action, who: string, now: int): Action {
    a.(rolledBack := true, rolledBackAt := Some(now), rollbackBy := who)
  }

  function RolledBack(config: Config, b: Board, id: nat, who: string, now: int, accepted: bool): Board {
    var i := IndexOf(b.log, id);
    if i == |b.log| || !CanRollBack(config, b.log[i], now, accepted) then b
    else
      var a := b.log[i];
      var log := b.log[i := Undone(a, who, now)];
      if a.kind == AutoBlock then b.(log := log, tasks := b.tasks[a.task := a.previous.value]) else b.(log := log)
  }

  function Since(log: seq<Action>, cutoff: int): seq<Action> {
    if log == [] then []
    else if log[0].appliedAt >= cutoff then [log[0]] + Since(log[1..], cutoff)
    else Since(log[1..], cutoff)
  }

  function Before(log: seq<Action>, cutoff: int): seq<Action> {
    if log == [] then []
    else if log[0].appliedAt < cutoff then [log[0]] + Before(log[1..], cutoff)
    else Before(log[1..], cutoff)
  }

  function Pruned(b: Board, days: int, now: int): Board {
    b.(log := Since(b.log, now - days * MS_PER_DAY), pruned := b.pruned + Before(b.log, now - days * MS_PER_DAY))
  }

  class BoardHealthWorker {
    const config: Config
    var tasks: map<string, Status>
    var auditLog: seq<Action>
    var nextId: nat
    ghost var pruned: seq<Action>

    ghost function View(): Board
      reads this
    {
      Board(tasks, auditLog, pruned, nextId)
    }

    constructor (config: Config, tasks: map<string, Status>)
      ensures this.config == config && View() == Board(tasks, [], [], 0)
    {
      this.config := config;
      this.tasks := tasks;
      auditLog, nextId, pruned := [], 0, [];
    }

    method Push(kind: Kind, task: string, previous: Option<Status>, now: int)
      modifies this
      ensures View() == Logged(old(View()), Fresh(old(View()), kind, task, previous, now))
    {
      auditLog := auditLog + [Action(nextId, kind, task, previous, now, false, None, "")];
      nextId := nextId + 1;
    }

    method ApplyAutoBlockStale(c: Candidate, now: int, dryRun: bool, ghost count: nat) returns (applied: bool)
      modifies this
      ensures Work(View(), if applied then count + 1 else count)
         == Block(config, Work(old(View()), count), c, now, dryRun)
    {
      if Recent(auditLog, AutoBlock, c.task, config.rollbackWindowMs, now) {
        return false;
      }
      var previous := if c.task in tasks then Some(tasks[c.task]) else None;
      if !dryRun {
        if c.effect == Refused {
          return false;
        }
        tasks := tasks[c.task := Blocked];
        if c.effect == ThrewAfterUpdate {
          return false;
        }
      }
      Push(AutoBlock, c.task, previous, now);
      applied := true;
    }

    method ApplySuggestClose(c: Candidate, now: int, dryRun: bool, ghost count: nat) returns (applied: bool)
      modifies this
      ensures Work(View(), if applied then count + 1 else count) == Suggest(Work(old(View()), count), c, now, dryRun)
    {
      if Recent(auditLog, SuggestClose, c.task, MS_PER_DAY, now) {
        return false;
      }
      if !dryRun && c.effect != Done {
        return false;
      }
      Push(SuggestClose, c.task, None, now);
      applied := true;
    }

    method FindByStatus(candidates: seq<Candidate>, statuses: set<Status>) returns (found: seq<Candidate>)
      ensures found == Having(tasks, candidates, statuses)
    {
      found := [];
      for i := 0 to |candidates|
        invariant found + Having(tasks, candidates[i..], statuses) == Having(tasks, candidates, statuses)
      {
        assert candidates[i..][1..] == candidates[i + 1..];
        if IsIn(tasks, candidates[i].task, statuses) {
          found := found + [candidates[i]];
        }
      }
    }

    method BlockStale(stale: seq<Candidate>, now: int, dryRun: bool) returns (count: nat)
      modifies this
      ensures Work(View(), count) == BlockAll(config, Work(old(View()), 0), stale, now, dryRun)
    {
      hide Block;
      count := 0;
      var n := 0;
      while n < |stale| && count < config.maxActionsPerTick
        invariant 0 <= n <= |stale|
        invariant BlockAll(config, Work(View(), count), stale[n..], now, dryRun)
           == BlockAll(config, Work(old(View()), 0), stale, now, dryRun)
      {
        assert stale[n..][1..] == stale[n + 1..];
        if !stale[n].excluded {
          var applied := ApplyAutoBlockStale(stale[n], now, dryRun, count);
          if applied {
            count := count + 1;
          }
        }
        n := n + 1;
      }
    }

    method SuggestAbandoned(abandoned: seq<Candidate>, now: int, dryRun: bool, before: nat) returns (count: nat)
      modifies this
      ensures Work(View(), count) == SuggestAll(config, Work(old(View()), before), abandoned, now, dryRun)
    {
      hide Suggest;
      count := before;
      var n := 0;
      while n < |abandoned| && count < config.maxActionsPerTick
        invariant 0 <= n <= |abandoned|
        invariant SuggestAll(config, Work(View(), count), abandoned[n..], now, dryRun)
           == SuggestAll(config, Work(old(View()), before), abandoned, now, dryRun)
      {
        assert abandoned[n..][1..] == abandoned[n + 1..];
        if !abandoned[n].excluded {
          var applied := ApplySuggestClose(abandoned[n], now, dryRun, count);
          if applied {
            count := count + 1;
          }
        }
        n := n + 1;
      }
    }

    /** `tickWorkingContract`, as far as it changes tasks. */
    method TickWorkingContract(unresponsive: seq<string>)
      modifies this`tasks
      ensures tasks == Requeued(old(tasks), unresponsive)
    {
      for k := 0 to |unresponsive|
        invariant tasks == Requeued(old(tasks), unresponsive[..k])
      {
        if unresponsive[k] in tasks && tasks[unresponsive[k]] == Doing {
          tasks := tasks[unresponsive[k] := Todo];
        }
      }
    }

    /** `tickContinuityLoop`, as far as it changes tasks. */
    method TickContinuityLoop(created: seq<string>)
      modifies this`tasks
      ensures tasks == WithNew(old(tasks), created)
    {
      for k := 0 to |created|
        invariant tasks == WithNew(old(tasks), created[..k])
      {
        if created[k] !in tasks {
          tasks := tasks[created[k] := Todo];
        }
      }
    }

    method Tick(i: TickInput) returns (skipped: bool)
      modifies this
      ensures View() == Ticked(config, old(View()), i)
      ensures skipped <==> !i.force && IsQuiet(config, i.hour)
    {
      hide BlockAll, SuggestAll, Having, Logged, Requeued, WithNew;
      if !i.force && IsQuiet(config, i.hour) {
        return true;
      }
      var stale := FindByStatus(i.inactive, {Doing});
      var count := BlockStale(stale, i.now, i.dryRun);
      var abandoned := FindByStatus(i.abandoned, {Todo, Blocked});
      count := SuggestAbandoned(abandoned, i.now, i.dryRun, count);
      ghost var acted := View();
      for k := 0 to |i.others|
        invariant View() == AddOthers(acted, i.others[..k], i.now)
      {
        assert i.others[..k + 1][..k] == i.others[..k];
        Push(OtherKind(i.others[k]), "", None, i.now);
      }
      assert i.others[..|i.others|] == i.others;
      if !i.dryRun {
        TickWorkingContract(i.unresponsive);
        TickContinuityLoop(i.created);
      }
      skipped := false;
    }

    method Rollback(id: nat, who: string, now: int, accepted: bool) returns (success: bool)
      modifies this
      ensures View() == RolledBack(config, old(View()), id, who, now, accepted)
      ensures var i := IndexOf(old(auditLog), id);
              success <==> i < |old(auditLog)| && CanRollBack(config, old(auditLog)[i], now, accepted)
    {
      var i := IndexOf(auditLog, id);
      if i == |auditLog| {
        return false;
      }
      var action := auditLog[i];
      if action.rolledBack {
        return false;
      }
      if now - action.appliedAt > config.rollbackWindowMs {
        return false;
      }
      var undone := Undone(action, who, now);
      if action.kind == AutoBlock && action.task != "" && action.previous.Some? {
        if !accepted {
          return false;
        }
        tasks := tasks[action.task := action.previous.value];
        auditLog := auditLog[i := undone];
        return true;
      }
      if action.kind == SuggestClose {
        auditLog := auditLog[i := undone];
        return true;
      }
      success := false;
    }

    method PruneAuditLog(maxAgeDays: int, now: int) returns (removed: nat)
      modifies this
      ensures View() == Pruned(old(View()), maxAgeDays, now)
      ensures removed == |old(auditLog)| - |auditLog|
    {
      var cutoff := now - maxAgeDays * MS_PER_DAY;
      var kept: seq<Action> := [];
      for i := 0 to |auditLog|
        invariant auditLog == old(auditLog) && tasks == old(tasks) && nextId == old(nextId) && pruned == old(pruned)
        invariant kept + Since(auditLog[i..], cutoff) == Since(auditLog, cutoff) && |kept| <= i
      {
        assert auditLog[i..][1..] == auditLog[i + 1..];
        if auditLog[i].appliedAt >= cutoff {
          kept := kept + [auditLog[i]];
        }
      }
      removed := |auditLog| - |kept|;
      pruned := pruned + Before(auditLog, cutoff);
      auditLog := kept;
    }
  }

  // ---------- what one action may change ----------

  /** The ids increase along the log, and the next one is new. */
  ghost predicate Numbered(b: Board) {
    && (forall i, j | 0 <= i < j < |b.log| :: b.log[i].id < b.log[j].id)
    && (forall i | 0 <= i < |b.log| :: b.log[i].id < b.nextId)
    && (forall i | 0 <= i < |b.pruned| :: b.pruned[i].id < b.nextId)
  }

  function All(b: Board): seq<Action> {
    b.pruned + b.log
  }

  function WindowOf(config: Config, kind: Kind): int {
    if kind == AutoBlock then config.rollbackWindowMs else MS_PER_DAY
  }

  ghost predicate Clash(a: Action, c: Action, kind: Kind, window: int) {
    && a.kind == kind && c.kind == kind && a.task == c.task && a.id < c.id && !a.rolledBack && !c.rolledBack
    && c.appliedAt - a.appliedAt < window
  }

  /** No two actions of the kind on one task that are not rolled back are closer than the window. */
  ghost predicate Spaced(b: Board, kind: Kind, window: int) {
    forall i, j | 0 <= i < |All(b)| && 0 <= j < |All(b)| :: !Clash(All(b)[i], All(b)[j], kind, window)
  }

  /** Pruned actions are out of the window. */
  ghost predicate PrunedAreOld(b: Board, window: int, now: int) {
    forall i | 0 <= i < |b.pruned| :: now - b.pruned[i].appliedAt >= window
  }

  ghost predicate Kept(b: Board, kind: Kind, window: int, now: int) {
    Numbered(b) && Spaced(b, kind, window) && PrunedAreOld(b, window, now)
  }

  lemma LogKeeps(b: Board, k: Kind, task: string, previous: Option<Status>, kind: Kind, window: int, now: int)
    requires Kept(b, kind, window, now)
    requires k == kind ==> !Recent(b.log, kind, task, window, now)
    ensures Kept(Logged(b, Fresh(b, k, task, previous, now)), kind, window, now)
  {
    var a, t := Fresh(b, k, task, previous, now), Logged(b, Fresh(b, k, task, previous, now));
    forall i, j | 0 <= i < |All(t)| && 0 <= j < |All(t)|
      ensures !Clash(All(t)[i], All(t)[j], kind, window)
    {
      if i < |All(b)| && j < |All(b)| {
        assert All(t)[i] == All(b)[i] && All(t)[j] == All(b)[j];
      } else if i < |All(b)| {
        assert All(t)[j] == a;
        if i >= |b.pruned| {
          assert All(t)[i] == b.log[i - |b.pruned|];
          assert !StillCounts(b.log[i - |b.pruned|], kind, task, window, now) || k != kind;
        }
      } else {
        assert All(t)[i].id == b.nextId;
      }
    }
  }

  lemma BlockKeeps(config: Config, w: Work, c: Candidate, now: int, dryRun: bool, kind: Kind)
    requires Kept(w.board, kind, WindowOf(config, kind), now)
    ensures Kept(Block(config, w, c, now, dryRun).board, kind, WindowOf(config, kind), now)
  {
    hide Recent, Kept, Logged, Fresh;
    var b := w.board;
    var t := if dryRun then b else b.(tasks := b.tasks[c.task := Blocked]);
    assert Kept(t, kind, WindowOf(config, kind), now) by {
      TasksDoNotMatter(b, t, kind, WindowOf(config, kind), now);
    }
    SameFresh(b, t, AutoBlock, c.task, StatusOf(b, c.task), now);
    if !Recent(b.log, AutoBlock, c.task, config.rollbackWindowMs, now) {
      LogKeeps(t, AutoBlock, c.task, StatusOf(b, c.task), kind, WindowOf(config, kind), now);
    }
  }

  lemma SameFresh(b: Board, t: Board, k: Kind, task: string, previous: Option<Status>, now: int)
    requires b.nextId == t.nextId
    ensures Fresh(b, k, task, previous, now) == Fresh(t, k, task, previous, now)
  {
  }

  lemma TasksDoNotMatter(b: Board, t: Board, kind: Kind, window: int, now: int)
    requires Kept(b, kind, window, now) && t == b.(tasks := t.tasks)
    ensures Kept(t, kind, window, now)
  {
    assert All(t) == All(b);
  }

  lemma SuggestKeeps(config: Config, w: Work, c: Candidate, now: int, dryRun: bool, kind: Kind)
    requires Kept(w.board, kind, WindowOf(config, kind), now)
    ensures Kept(Suggest(w, c, now, dryRun).board, kind, WindowOf(config, kind), now)
  {
    hide Recent, Kept, Logged, Fresh;
    if !Recent(w.board.log, SuggestClose, c.task, MS_PER_DAY, now) {
      LogKeeps(w.board, SuggestClose, c.task, None, kind, WindowOf(config, kind), now);
    }
  }

  lemma {:induction false} BlockAllKeeps(config: Config, w: Work, cs: seq<Candidate>, now: int, dryRun: bool,
      kind: Kind)
    requires Kept(w.board, kind, WindowOf(config, kind), now)
    ensures Kept(BlockAll(config, w, cs, now, dryRun).board, kind, WindowOf(config, kind), now)
    decreases |cs|
  {
    hide Block, Kept;
    if cs != [] && w.count < config.maxActionsPerTick {
      BlockKeeps(config, w, cs[0], now, dryRun, kind);
      BlockAllKeeps(config, if cs[0].excluded then w else Block(config, w, cs[0], now, dryRun), cs[1..], now, dryRun, kind);
    }
  }

  lemma {:induction false} SuggestAllKeeps(config: Config, w: Work, cs: seq<Candidate>, now: int, dryRun: bool,
      kind: Kind)
    requires Kept(w.board, kind, WindowOf(config, kind), now)
    ensures Kept(SuggestAll(config, w, cs, now, dryRun).board, kind, WindowOf(config, kind), now)
    decreases |cs|
  {
    hide Suggest, Kept;
    if cs != [] && w.count < config.maxActionsPerTick {
      SuggestKeeps(config, w, cs[0], now, dryRun, kind);
      SuggestAllKeeps(config, if cs[0].excluded then w else Suggest(w, cs[0], now, dryRun), cs[1..], now, dryRun, kind);
    }
  }

  lemma {:induction false} OthersKeep(b: Board, names: seq<string>, now: int, kind: Kind, window: int)
    requires Kept(b, kind, window, now) && !kind.OtherKind?
    ensures Kept(AddOthers(b, names, now), kind, window, now)
  {
    hide Kept, Logged, Fresh;
    if names != [] {
      var front := AddOthers(b, names[..|names| - 1], now);
      OthersKeep(b, names[..|names| - 1], now, kind, window);
      LogKeeps(front, OtherKind(names[|names| - 1]), "", None, kind, window, now);
    }
  }

  lemma TickKeeps(config: Config, b: Board, i: TickInput, kind: Kind)
    requires Kept(b, kind, WindowOf(config, kind), i.now) && !kind.OtherKind?
    ensures Kept(Ticked(config, b, i), kind, WindowOf(config, kind), i.now)
  {
    hide Kept, BlockAll, SuggestAll, Having, AddOthers, TasksAfter;
    var w := BlockAll(config, Work(b, 0), Having(b.tasks, i.inactive, {Doing}), i.now, i.dryRun);
    BlockAllKeeps(config, Work(b, 0), Having(b.tasks, i.inactive, {Doing}), i.now, i.dryRun, kind);
    SuggestAllKeeps(config, w, Having(w.board.tasks, i.abandoned, {Todo, Blocked}), i.now, i.dryRun, kind);
    var t := AddOthers(Policies(config, b, i).board, i.others, i.now);
    OthersKeep(Policies(config, b, i).board, i.others, i.now, kind, WindowOf(config, kind));
    TasksDoNotMatter(t, t.(tasks := TasksAfter(t.tasks, i)), kind, WindowOf(config, kind), i.now);
  }

  /** Marking one action as rolled back can only remove clashes. */
  lemma MarkKeeps(b: Board, t: Board, k: nat, kind: Kind, window: int, now: int)
    requires Kept(b, kind, window, now) && k < |b.log| && |t.log| == |b.log|
    requires t.pruned == b.pruned && t.nextId == b.nextId
    requires forall i | 0 <= i < |b.log| && i != k :: t.log[i] == b.log[i]
    requires t.log[k].id == b.log[k].id && t.log[k].rolledBack
    ensures Kept(t, kind, window, now)
  {
    hide Clash;
    forall i, j | 0 <= i < |All(t)| && 0 <= j < |All(t)|
      ensures !Clash(All(t)[i], All(t)[j], kind, window)
    {
      if i == |b.pruned| + k || j == |b.pruned| + k {
        RolledBackNeverClash(All(t)[i], All(t)[j], kind, window);
      } else {
        assert All(t)[i] == All(b)[i] && All(t)[j] == All(b)[j];
      }
    }
    assert forall i | 0 <= i < |b.log| :: t.log[i].id == b.log[i].id;
  }

  lemma RolledBackNeverClash(a: Action, c: Action, kind: Kind, window: int)
    requires a.rolledBack || c.rolledBack
    ensures !Clash(a, c, kind, window)
  {
  }

  lemma RollbackKeeps(config: Config, b: Board, id: nat, who: string, at: int, accepted: bool, kind: Kind, window: int,
      now: int)
    requires Kept(b, kind, window, now)
    ensures Kept(RolledBack(config, b, id, who, at, accepted), kind, window, now)
  {
    hide CanRollBack, Kept;
    var k := IndexOf(b.log, id);
    if k < |b.log| && CanRollBack(config, b.log[k], at, accepted) {
      MarkKeeps(b, RolledBack(config, b, id, who, at, accepted), k, kind, window, now);
    }
  }

  lemma {:induction false} PartsOf(log: seq<Action>, cutoff: int)
    ensures forall a :: a in Since(log, cutoff) <==> a in log && a.appliedAt >= cutoff
    ensures forall a :: a in Before(log, cutoff) <==> a in log && a.appliedAt < cutoff
  {
    if log != [] {
      assert log == [log[0]] + log[1..];
      PartsOf(log[1..], cutoff);
    }
  }

  lemma {:induction false} SinceIncreases(log: seq<Action>, cutoff: int)
    requires forall i, j | 0 <= i < j < |log| :: log[i].id < log[j].id
    ensures forall i, j | 0 <= i < j < |Since(log, cutoff)| :: Since(log, cutoff)[i].id < Since(log, cutoff)[j].id
  {
    if log != [] {
      SinceIncreases(log[1..], cutoff);
      PartsOf(log[1..], cutoff);
      assert forall a | a in log[1..] :: log[0].id < a.id;
      assert forall j | 0 <= j < |Since(log[1..], cutoff)| :: Since(log[1..], cutoff)[j] in Since(log[1..], cutoff);
    }
  }

  lemma PruneKeeps(b: Board, days: int, kind: Kind, window: int, now: int)
    requires Kept(b, kind, window, now) && window <= days * MS_PER_DAY
    ensures Kept(Pruned(b, days, now), kind, window, now)
  {
    hide Since, Before;
    var t, cutoff := Pruned(b, days, now), now - days * MS_PER_DAY;
    PartsOf(b.log, cutoff);
    SinceIncreases(b.log, cutoff);
    forall i | 0 <= i < |All(t)|
      ensures All(t)[i] in All(b)
    {
      assert i < |t.pruned| ==> All(t)[i] in t.pruned;
      assert i >= |t.pruned| ==> All(t)[i] in t.log;
    }
    assert forall i | 0 <= i < |t.log| :: t.log[i] in t.log;
    assert forall i | 0 <= i < |t.pruned| :: t.pruned[i] in t.pruned;
  }

  lemma LaterKeeps(b: Board, kind: Kind, window: int, now: int, later: int)
    requires Kept(b, kind, window, now) && now <= later
    ensures Kept(b, kind, window, later)
  {
  }

  // ---------- runs ----------

  datatype Op =
    | TickOp(input: TickInput)
    | RollbackOp(id: nat, who: string, now: int, accepted: bool)
    | PruneOp(days: int, now: int)
    | TaskChanges(task: string, status: Status, now: int)

  function TimeOf(op: Op): int {
    if op.TickOp? then op.input.now else op.now
  }

  function Apply(config: Config, b: Board, op: Op): Board {
    match op
    case TickOp(i) => Ticked(config, b, i)
    case RollbackOp(id, who, now, accepted) => RolledBack(config, b, id, who, now, accepted)
    case PruneOp(days, now) => Pruned(b, days, now)
    case TaskChanges(task, status, _) => b.(tasks := b.tasks[task := status])
  }

  function Run(config: Config, b: Board, ops: seq<Op>): Board {
    if ops == [] then b else Apply(config, Run(config, b, ops[..|ops| - 1]), ops[|ops| - 1])
  }

  /** The clock never runs backward. */
  ghost predicate Timely(ops: seq<Op>) {
    forall i, j | 0 <= i < j < |ops| :: TimeOf(ops[i]) <= TimeOf(ops[j])
  }

  /** Pruning keeps at least the window of the kind. */
  ghost predicate PrunesLate(ops: seq<Op>, window: int) {
    forall i | 0 <= i < |ops| && ops[i].PruneOp? :: window <= ops[i].days * MS_PER_DAY
  }

  lemma ApplyKeeps(config: Config, b: Board, op: Op, kind: Kind)
    requires Kept(b, kind, WindowOf(config, kind), TimeOf(op)) && !kind.OtherKind?
    requires op.PruneOp? ==> WindowOf(config, kind) <= op.days * MS_PER_DAY
    ensures Kept(Apply(config, b, op), kind, WindowOf(config, kind), TimeOf(op))
  {
    hide Kept, Ticked, RolledBack, Pruned, WindowOf;
    match op
    case TickOp(i) => TickKeeps(config, b, i, kind);
    case RollbackOp(id, who, now, accepted) => RollbackKeeps(config, b, id, who, now, accepted, kind, WindowOf(config, kind), now);
    case PruneOp(days, now) => PruneKeeps(b, days, kind, WindowOf(config, kind), now);
    case TaskChanges(task, status, now) => TasksDoNotMatter(b, Apply(config, b, op), kind, WindowOf(config, kind), now);
  }

  lemma {:induction false} RunKeeps(config: Config, tasks: map<string, Status>, ops: seq<Op>, kind: Kind)
    requires Timely(ops) && PrunesLate(ops, WindowOf(config, kind)) && !kind.OtherKind?
    ensures forall now | ops == [] || TimeOf(ops[|ops| - 1]) <= now ::
        Kept(Run(config, Board(tasks, [], [], 0), ops), kind, WindowOf(config, kind), now)
  {
    hide Kept, Apply, WindowOf;
    var start := Board(tasks, [], [], 0);
    if ops == [] {
      forall now
        ensures Kept(start, kind, WindowOf(config, kind), now)
      {
        NothingYet(tasks, kind, WindowOf(config, kind), now);
      }
    } else {
      var n := |ops| - 1;
      var before, now := Run(config, start, ops[..n]), TimeOf(ops[n]);
      RunKeeps(config, tasks, ops[..n], kind);
      assert Kept(before, kind, WindowOf(config, kind), now) by {
        assert n > 0 ==> TimeOf(ops[n - 1]) <= now;
      }
      ApplyKeeps(config, before, ops[n], kind);
      forall later | now <= later
        ensures Kept(Run(config, start, ops), kind, WindowOf(config, kind), later)
      {
        LaterKeeps(Run(config, start, ops), kind, WindowOf(config, kind), now, later);
      }
    }
  }

  lemma NothingYet(tasks: map<string, Status>, kind: Kind, window: int, now: int)
    ensures Kept(Board(tasks, [], [], 0), kind, window, now)
  {
  }

  /**
   * Over any run of ticks, rollbacks, prunings and task changes, dry or not, two automatic blocks
   * (or two close suggestions) on one task that are both not rolled back are at least the window
   * apart, also when one of them has been pruned from the log.
   */
  lemma ActionsApart(config: Config, tasks: map<string, Status>, ops: seq<Op>, kind: Kind, i: nat, j: nat)
    requires Timely(ops) && PrunesLate(ops, WindowOf(config, kind)) && kind in {AutoBlock, SuggestClose}
    requires i < |All(Run(config, Board(tasks, [], [], 0), ops))| && j < |All(Run(config, Board(tasks, [], [], 0), ops))|
    ensures var all := All(Run(config, Board(tasks, [], [], 0), ops));
            !Clash(all[i], all[j], kind, WindowOf(config, kind))
  {
    hide Clash, Run, Timely, PrunesLate, WindowOf;
    RunKeeps(config, tasks, ops, kind);
    var now := if ops == [] then 0 else TimeOf(ops[|ops| - 1]);
    assert Kept(Run(config, Board(tasks, [], [], 0), ops), kind, WindowOf(config, kind), now);
  }

  // ---------- the budget ----------

  predicate Budgeted(a: Action) {
    !a.kind.OtherKind?
  }

  function BudgetedIn(log: seq<Action>): nat {
    if log == [] then 0
    else BudgetedIn(log[..|log| - 1]) + (if Budgeted(log[|log| - 1]) then 1 else 0)
  }

  lemma LoggedBudget(b: Board, a: Action)
    ensures BudgetedIn(Logged(b, a).log) == BudgetedIn(b.log) + (if Budgeted(a) then 1 else 0)
  {
    assert (b.log + [a])[..|b.log|] == b.log;
  }

  /** `w` has counted exactly the actions that it has logged since `b`. */
  ghost predicate Counted(b: Board, w: Work) {
    BudgetedIn(w.board.log) == BudgetedIn(b.log) + w.count
  }

  lemma BlockCounts(config: Config, b: Board, w: Work, c: Candidate, now: int, dryRun: bool)
    requires Counted(b, w)
    ensures Counted(b, Block(config, w, c, now, dryRun)) && Block(config, w, c, now, dryRun).count <= w.count + 1
  {
    hide Recent, BudgetedIn;
    var d := w.board;
    var t := if dryRun then d else d.(tasks := d.tasks[c.task := Blocked]);
    LoggedBudget(t, Fresh(d, AutoBlock, c.task, StatusOf(d, c.task), now));
  }

  lemma SuggestCounts(b: Board, w: Work, c: Candidate, now: int, dryRun: bool)
    requires Counted(b, w)
    ensures Counted(b, Suggest(w, c, now, dryRun)) && Suggest(w, c, now, dryRun).count <= w.count + 1
  {
    hide Recent, BudgetedIn;
    LoggedBudget(w.board, Fresh(w.board, SuggestClose, c.task, None, now));
  }

  lemma {:induction false} BlockAllCounts(config: Config, b: Board, w: Work, cs: seq<Candidate>, now: int, dryRun: bool)
    requires Counted(b, w) && w.count <= Budget(config)
    ensures Counted(b, BlockAll(config, w, cs, now, dryRun))
    ensures BlockAll(config, w, cs, now, dryRun).count <= Budget(config)
    decreases |cs|
  {
    hide Block, Counted;
    if cs != [] && w.count < config.maxActionsPerTick {
      BlockCounts(config, b, w, cs[0], now, dryRun);
      BlockAllCounts(config, b, if cs[0].excluded then w else Block(config, w, cs[0], now, dryRun), cs[1..], now, dryRun);
    }
  }

  lemma {:induction false} SuggestAllCounts(config: Config, b: Board, w: Work, cs: seq<Candidate>, now: int,
      dryRun: bool)
    requires Counted(b, w) && w.count <= Budget(config)
    ensures Counted(b, SuggestAll(config, w, cs, now, dryRun))
    ensures SuggestAll(config, w, cs, now, dryRun).count <= Budget(config)
    decreases |cs|
  {
    hide Suggest, Counted;
    if cs != [] && w.count < config.maxActionsPerTick {
      SuggestCounts(b, w, cs[0], now, dryRun);
      SuggestAllCounts(config, b, if cs[0].excluded then w else Suggest(w, cs[0], now, dryRun), cs[1..], now, dryRun);
    }
  }

  lemma {:induction false} OthersAreFree(b: Board, names: seq<string>, now: int)
    ensures BudgetedIn(AddOthers(b, names, now).log) == BudgetedIn(b.log)
  {
    hide BudgetedIn, Logged;
    if names != [] {
      var front := AddOthers(b, names[..|names| - 1], now);
      OthersAreFree(b, names[..|names| - 1], now);
      LoggedBudget(front, Fresh(front, OtherKind(names[|names| - 1]), "", None, now));
    }
  }

  function Budget(config: Config): nat {
    if config.maxActionsPerTick < 0 then 0 else config.maxActionsPerTick
  }

  /** One tick logs at most `maxActionsPerTick` blocks and suggestions together. */
  lemma TickWithinBudget(config: Config, b: Board, i: TickInput)
    ensures BudgetedIn(b.log) <= BudgetedIn(Ticked(config, b, i).log) <= BudgetedIn(b.log) + Budget(config)
  {
    hide BlockAll, SuggestAll, AddOthers, BudgetedIn, Having;
    var w := BlockAll(config, Work(b, 0), Having(b.tasks, i.inactive, {Doing}), i.now, i.dryRun);
    BlockAllCounts(config, b, Work(b, 0), Having(b.tasks, i.inactive, {Doing}), i.now, i.dryRun);
    SuggestAllCounts(config, b, w, Having(w.board.tasks, i.abandoned, {Todo, Blocked}), i.now, i.dryRun);
    OthersAreFree(Policies(config, b, i).board, i.others, i.now);
  }

  // ---------- what a tick does to the tasks ----------

  /** A task is as before, or it was in progress and is now blocked. */
  ghost predicate OnlyBlocked(before: map<string, Status>, after: map<string, Status>) {
    && before.Keys == after.Keys
    && forall t | t in before :: after[t] == before[t] || (before[t] == Doing && after[t] == Blocked)
  }

  lemma {:induction false} BlockAllOnlyBlocks(config: Config, before: map<string, Status>, w: Work, cs: seq<Candidate>,
      now: int, dryRun: bool)
    requires OnlyBlocked(before, w.board.tasks)
    requires forall i | 0 <= i < |cs| :: IsIn(before, cs[i].task, {Doing})
    ensures OnlyBlocked(before, BlockAll(config, w, cs, now, dryRun).board.tasks)
    ensures dryRun ==> BlockAll(config, w, cs, now, dryRun).board.tasks == w.board.tasks
    decreases |cs|
  {
    hide Recent, Fresh;
    if cs != [] && w.count < config.maxActionsPerTick {
      assert IsIn(before, cs[0].task, {Doing});
      var next := if cs[0].excluded then w else Block(config, w, cs[0], now, dryRun);
      BlockAllOnlyBlocks(config, before, next, cs[1..], now, dryRun);
    }
  }

  lemma {:induction false} SuggestAllKeepsTasks(config: Config, w: Work, cs: seq<Candidate>, now: int, dryRun: bool)
    ensures SuggestAll(config, w, cs, now, dryRun).board.tasks == w.board.tasks
    decreases |cs|
  {
    hide Recent;
    if cs != [] && w.count < config.maxActionsPerTick {
      SuggestAllKeepsTasks(config, if cs[0].excluded then w else Suggest(w, cs[0], now, dryRun), cs[1..], now, dryRun);
    }
  }

  lemma {:induction false} OthersKeepTasks(b: Board, names: seq<string>, now: int)
    ensures AddOthers(b, names, now).tasks == b.tasks
  {
    if names != [] {
      OthersKeepTasks(b, names[..|names| - 1], now);
    }
  }

  lemma {:induction false} HavingMeans(tasks: map<string, Status>, cs: seq<Candidate>, statuses: set<Status>)
    ensures forall i | 0 <= i < |Having(tasks, cs, statuses)| ::
        IsIn(tasks, Having(tasks, cs, statuses)[i].task, statuses)
  {
    hide IsIn;
    if cs != [] {
      HavingMeans(tasks, cs[1..], statuses);
    }
  }

  /** The budgeted policies turn some tasks in progress into blocked ones and change no other; a dry tick changes none. */
  lemma TickOnlyBlocks(config: Config, b: Board, i: TickInput)
    ensures OnlyBlocked(b.tasks, Policies(config, b, i).board.tasks)
    ensures i.dryRun ==> Ticked(config, b, i).tasks == b.tasks
  {
    hide BlockAll, SuggestAll, AddOthers, Having, IsIn, Requeued, WithNew;
    var stale := Having(b.tasks, i.inactive, {Doing});
    var w := BlockAll(config, Work(b, 0), stale, i.now, i.dryRun);
    HavingMeans(b.tasks, i.inactive, {Doing});
    BlockAllOnlyBlocks(config, b.tasks, Work(b, 0), stale, i.now, i.dryRun);
    SuggestAllKeepsTasks(config, w, Having(w.board.tasks, i.abandoned, {Todo, Blocked}), i.now, i.dryRun);
    OthersKeepTasks(Policies(config, b, i).board, i.others, i.now);
  }

  // ---------- rollback over a run ----------

  /** The action `id`, as long as it is in the log, has the property; the id is not given out again. */
  ghost predicate Stays(b: Board, id: nat, p: Action -> bool) {
    id < b.nextId && forall i | 0 <= i < |b.log| && b.log[i].id == id :: p(b.log[i])
  }

  /** Marking an action as rolled back keeps the property. */
  ghost predicate SurvivesMarking(p: Action -> bool) {
    forall a, who, now | p(a) :: p(Undone(a, who, now))
  }

  lemma LoggedStays(b: Board, a: Action, id: nat, p: Action -> bool)
    requires Stays(b, id, p) && a.id == b.nextId
    ensures Stays(Logged(b, a), id, p)
  {
  }

  lemma {:induction false} BlockAllStays(config: Config, w: Work, cs: seq<Candidate>, now: int, dryRun: bool, id: nat,
      p: Action -> bool)
    requires Stays(w.board, id, p)
    ensures Stays(BlockAll(config, w, cs, now, dryRun).board, id, p)
    decreases |cs|
  {
    hide Recent;
    if cs != [] && w.count < config.maxActionsPerTick {
      BlockAllStays(config, if cs[0].excluded then w else Block(config, w, cs[0], now, dryRun), cs[1..], now, dryRun, id, p);
    }
  }

  lemma {:induction false} SuggestAllStays(config: Config, w: Work, cs: seq<Candidate>, now: int, dryRun: bool,
      id: nat, p: Action -> bool)
    requires Stays(w.board, id, p)
    ensures Stays(SuggestAll(config, w, cs, now, dryRun).board, id, p)
    decreases |cs|
  {
    hide Recent;
    if cs != [] && w.count < config.maxActionsPerTick {
      SuggestAllStays(config, if cs[0].excluded then w else Suggest(w, cs[0], now, dryRun), cs[1..], now, dryRun, id, p);
    }
  }

  lemma {:induction false} OthersStay(b: Board, names: seq<string>, now: int, id: nat, p: Action -> bool)
    requires Stays(b, id, p)
    ensures Stays(AddOthers(b, names, now), id, p)
  {
    hide Stays, Logged;
    if names != [] {
      var front := AddOthers(b, names[..|names| - 1], now);
      OthersStay(b, names[..|names| - 1], now, id, p);
      LoggedStays(front, Fresh(front, OtherKind(names[|names| - 1]), "", None, now), id, p);
    }
  }

  lemma TickStays(config: Config, b: Board, i: TickInput, id: nat, p: Action -> bool)
    requires Stays(b, id, p)
    ensures Stays(Ticked(config, b, i), id, p)
  {
    hide Stays, BlockAll, SuggestAll, Having, AddOthers, TasksAfter;
    var w := BlockAll(config, Work(b, 0), Having(b.tasks, i.inactive, {Doing}), i.now, i.dryRun);
    BlockAllStays(config, Work(b, 0), Having(b.tasks, i.inactive, {Doing}), i.now, i.dryRun, id, p);
    SuggestAllStays(config, w, Having(w.board.tasks, i.abandoned, {Todo, Blocked}), i.now, i.dryRun, id, p);
    var t := AddOthers(Policies(config, b, i).board, i.others, i.now);
    OthersStay(Policies(config, b, i).board, i.others, i.now, id, p);
    NewTasksStay(t, t.(tasks := TasksAfter(t.tasks, i)), id, p);
  }

  lemma RollbackStays(config: Config, b: Board, other: nat, who: string, now: int, accepted: bool, id: nat,
      p: Action -> bool)
    requires Stays(b, id, p) && SurvivesMarking(p)
    ensures Stays(RolledBack(config, b, other, who, now, accepted), id, p)
  {
    hide CanRollBack;
    var k := IndexOf(b.log, other);
    if k < |b.log| && CanRollBack(config, b.log[k], now, accepted) {
      assert b.log[k].id == id ==> p(Undone(b.log[k], who, now));
    }
  }

  lemma PruneStays(b: Board, days: int, now: int, id: nat, p: Action -> bool)
    requires Stays(b, id, p)
    ensures Stays(Pruned(b, days, now), id, p)
  {
    hide Since, Before;
    var cutoff := now - days * MS_PER_DAY;
    PartsOf(b.log, cutoff);
    forall i | 0 <= i < |Since(b.log, cutoff)| && Since(b.log, cutoff)[i].id == id
      ensures p(Since(b.log, cutoff)[i])
    {
      assert Since(b.log, cutoff)[i] in Since(b.log, cutoff);
    }
  }

  lemma {:induction false} RunStays(config: Config, b: Board, ops: seq<Op>, id: nat, p: Action -> bool)
    requires Stays(b, id, p) && SurvivesMarking(p)
    ensures Stays(Run(config, b, ops), id, p)
  {
    hide Stays, SurvivesMarking, Ticked, RolledBack, Pruned;
    if ops != [] {
      var n := |ops| - 1;
      var before := Run(config, b, ops[..n]);
      RunStays(config, b, ops[..n], id, p);
      match ops[n]
      case TickOp(i) => TickStays(config, before, i, id, p);
      case RollbackOp(other, who, now, accepted) => RollbackStays(config, before, other, who, now, accepted, id, p);
      case PruneOp(days, now) => PruneStays(before, days, now, id, p);
      case TaskChanges(task, status, now) => NewTasksStay(before, Apply(config, before, ops[n]), id, p);
    }
  }

  lemma NewTasksStay(b: Board, t: Board, id: nat, p: Action -> bool)
    requires Stays(b, id, p) && t == b.(tasks := t.tasks)
    ensures Stays(t, id, p)
  {
  }

  /** A rollback is refused when the action is gone or may not be rolled back. */
  predicate Refuses(config: Config, b: Board, id: nat, now: int, accepted: bool) {
    var i := IndexOf(b.log, id);
    i == |b.log| || !CanRollBack(config, b.log[i], now, accepted)
  }

  /** A second rollback of one action is refused, whatever happened in between and at whatever time. */
  lemma RolledBackOnce(config: Config, b: Board, id: nat, who: string, now: int, accepted: bool, ops: seq<Op>,
      later: int, acceptedLater: bool)
    requires Numbered(b) && !Refuses(config, b, id, now, accepted)
    ensures Refuses(config, Run(config, RolledBack(config, b, id, who, now, accepted), ops), id, later, acceptedLater)
  {
    hide Run;
    var p := (a: Action) => a.rolledBack;
    var t := RolledBack(config, b, id, who, now, accepted);
    assert Stays(t, id, p);
    RunStays(config, t, ops, id, p);
  }

  /** What the record of a block says about it. */
  ghost predicate IsBlockOf(a: Action, task: string, previous: Option<Status>, at: int) {
    a.kind == AutoBlock && a.task == task && a.previous == previous && a.appliedAt == at
  }

  /**
   * Rolling back a logged block, after whatever else happened, puts the task into the status it had
   * just before the block and changes no other task; it is possible only inside the window. The same
   * holds of a dry block, which had changed nothing: its rollback writes the old status over a newer one.
   */
  lemma RollbackRestores(config: Config, b: Board, c: Candidate, now: int, dryRun: bool, ops: seq<Op>, who: string,
      later: int, accepted: bool)
    requires Numbered(b) && Block(config, Work(b, 0), c, now, dryRun).count == 1 && c.task in b.tasks
    requires !Refuses(config, Run(config, Block(config, Work(b, 0), c, now, dryRun).board, ops), b.nextId, later, accepted)
    ensures var t := Run(config, Block(config, Work(b, 0), c, now, dryRun).board, ops);
            RolledBack(config, t, b.nextId, who, later, accepted).tasks == t.tasks[c.task := b.tasks[c.task]]
    ensures later - now <= config.rollbackWindowMs && accepted
    ensures ops == [] ==>
        RolledBack(config, Block(config, Work(b, 0), c, now, dryRun).board, b.nextId, who, later, accepted).tasks
        == b.tasks
  {
    hide Run, Recent;
    var p := (a: Action) => IsBlockOf(a, c.task, Some(b.tasks[c.task]), now);
    var t := Block(config, Work(b, 0), c, now, dryRun).board;
    assert Stays(t, b.nextId, p);
    RunStays(config, t, ops, b.nextId, p);
    RunOfNothing(config, t);
  }

  /** A rollback that the task manager does not accept is refused, after whatever else happened. */
  lemma UnacceptedIsRefused(config: Config, b: Board, c: Candidate, now: int, dryRun: bool, ops: seq<Op>, later: int)
    requires Numbered(b) && Block(config, Work(b, 0), c, now, dryRun).count == 1
    ensures Refuses(config, Run(config, Block(config, Work(b, 0), c, now, dryRun).board, ops), b.nextId, later, false)
  {
    hide Run, Recent;
    var p := (a: Action) => a.kind == AutoBlock;
    var t := Block(config, Work(b, 0), c, now, dryRun).board;
    assert Stays(t, b.nextId, p);
    RunStays(config, t, ops, b.nextId, p);
  }

  lemma RunOfNothing(config: Config, b: Board)
    ensures Run(config, b, []) == b
  {
  }

  /** Dismissing a close suggestion does not keep it away: from then on only other suggestions do. */
  lemma DismissalReopens(config: Config, b: Board, id: nat, task: string, who: string, now: int, accepted: bool,
      later: int)
    requires Numbered(b) && !Refuses(config, b, id, now, accepted) && b.log[IndexOf(b.log, id)].kind == SuggestClose
    requires b.log[IndexOf(b.log, id)].task == task
    ensures Recent(RolledBack(config, b, id, who, now, accepted).log, SuggestClose, task, MS_PER_DAY, later)
       <==> exists i | 0 <= i < |b.log| :: b.log[i].id != id && StillCounts(b.log[i], SuggestClose, task, MS_PER_DAY, later)
  {
    var k := IndexOf(b.log, id);
    var t := RolledBack(config, b, id, who, now, accepted);
    assert forall i | 0 <= i < |b.log| && i != k :: t.log[i] == b.log[i] && b.log[i].id != id;
    if Recent(t.log, SuggestClose, task, MS_PER_DAY, later) {
      var i :| 0 <= i < |t.log| && StillCounts(t.log[i], SuggestClose, task, MS_PER_DAY, later);
      assert b.log[i].id != id && StillCounts(b.log[i], SuggestClose, task, MS_PER_DAY, later);
    }
    if exists i | 0 <= i < |b.log| :: b.log[i].id != id && StillCounts(b.log[i], SuggestClose, task, MS_PER_DAY, later) {
      var i :| 0 <= i < |b.log| && b.log[i].id != id && StillCounts(b.log[i], SuggestClose, task, MS_PER_DAY, later);
      assert StillCounts(t.log[i], SuggestClose, task, MS_PER_DAY, later);
    }
  }
}
