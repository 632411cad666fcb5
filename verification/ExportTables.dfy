/** The steps of the export protocol as the program takes them, on tables updated in place. */
module ExportTables {
  import opened Common
  import opened TaskLogs
  import opened ExportProtocol
  import ExportOutcome

  /** The groups a scheduler queues: those of its answer that the failing-export check does not skip. */
  function Unskipped(groups: seq<nat>, skipped: set<nat>): (r: seq<nat>)
    ensures forall g :: g in r <==> g in groups && g !in skipped
  {
    if groups == [] then []
    else
      var before, g := Unskipped(groups[..|groups| - 1], skipped), groups[|groups| - 1];
      if g in skipped then before else before + [g]
  }

  function EnqueueEach(scheduler: nat, groups: seq<nat>): seq<Event> {
    seq(|groups|, i requires 0 <= i < |groups| => Enqueue(scheduler, groups[i]))
  }

  lemma EnqueueOneMore(p: Protocol, scheduler: nat, groups: seq<nat>, g: nat)
    ensures Run(p, EnqueueEach(scheduler, groups + [g])) ==
              Step(Run(p, EnqueueEach(scheduler, groups)), Enqueue(scheduler, g))
  {
    assert EnqueueEach(scheduler, groups + [g]) == EnqueueEach(scheduler, groups) + [Enqueue(scheduler, g)];
    RunSnoc(p, EnqueueEach(scheduler, groups), Enqueue(scheduler, g));
  }

  /** The tasks of these groups for the logs they have. */
  function TasksOf(p: Protocol, groups: seq<nat>): seq<Task> {
    seq(|groups|, i requires 0 <= i < |groups| => Task(groups[i], Count(p.rows, groups[i])))
  }

  /** Every group that is listed has its log. */
  predicate HaveLogs(p: Protocol, groups: seq<nat>) {
    forall g :: g in groups ==> g in p.logs
  }

  lemma OneMoreTask(p: Protocol, groups: seq<nat>, g: nat)
    requires HaveLogs(p, groups)
    ensures var q := EnqueueStep(p, g);
            && HaveLogs(q, groups + [g]) && q.queue == p.queue + multiset{Task(g, Count(q.rows, g))}
            && TasksOf(q, groups + [g]) == TasksOf(p, groups) + [Task(g, Count(q.rows, g))]
  {
    var q := EnqueueStep(p, g);
    forall i | 0 <= i < |groups| ensures Count(q.rows, groups[i]) == Count(p.rows, groups[i]) {
      assert groups[i] in groups;
    }
  }

  /** Each listed group gets one task for every time it is queued, whatever its log says, and the task names its log. */
  lemma {:induction false} EachGetsATask(p: Protocol, scheduler: nat, groups: seq<nat>)
    requires forall g :: g in groups ==> StillLists(p, scheduler, g)
    ensures var q := Run(p, EnqueueEach(scheduler, groups));
            && HaveLogs(q, groups) && q.queue == p.queue + multiset(TasksOf(q, groups))
            && q.seen == p.seen && q.exported == p.exported
  {
    if groups == [] {
      assert EnqueueEach(scheduler, groups) == [];
    } else {
      var front, last := groups[..|groups| - 1], groups[|groups| - 1];
      assert groups == front + [last] && last in groups;
      EachGetsATask(p, scheduler, front);
      EnqueueOneMore(p, scheduler, front, last);
      OneMoreTask(Run(p, EnqueueEach(scheduler, front)), front, last);
    }
  }

  lemma AnswerOneMore(p: Protocol, groups: set<nat>, todo: set<nat>, g: nat)
    requires g in todo && todo <= groups
    ensures Answer(p, groups - (todo - {g})) == Answer(p, groups - todo) + if Schedulable(p, g) then {g} else {}
  {
    assert groups - (todo - {g}) == (groups - todo) + {g};
  }

  lemma AnswerToAll(p: Protocol, groups: set<nat>)
    ensures Answer(p, groups - {}) == Answer(p, groups)
  {
    assert groups - {} == groups;
  }

  /** One row of the sweeper's update. */
  function SweptRow(p: Protocol, g: nat): Protocol {
    if Stuck(p, g) then p.(logs := p.logs[g := Failed], sweeps := Bump(p.sweeps, g)) else p
  }

  /** The listed rows in turn; a row listed again is no longer stuck. */
  function SweptEach(p: Protocol, stale: seq<nat>): Protocol {
    if stale == [] then p else SweptRow(SweptEach(p, stale[..|stale| - 1]), stale[|stale| - 1])
  }

  lemma {:induction false} SweptEachIsSwept(p: Protocol, stale: seq<nat>)
    ensures SweptEach(p, stale) == Swept(p, Hits(p, Elems(stale)))
  {
    if stale == [] {
      assert Hits(p, Elems(stale)) == {};
    } else {
      var front, last := stale[..|stale| - 1], stale[|stale| - 1];
      assert stale == front + [last];
      SweptEachIsSwept(p, front);
      SweptOneMore(p, Elems(front), last);
      assert Elems(stale) == Elems(front) + {last};
    }
  }

  lemma SweptOneMore(p: Protocol, done: set<nat>, g: nat)
    ensures SweptRow(Swept(p, Hits(p, done)), g) == Swept(p, Hits(p, done + {g}))
  {
    var hit := Hits(p, done);
    var q := Swept(p, hit);
    if Stuck(p, g) && g !in done {
      assert Hits(p, done + {g}) == hit + {g};
      assert Swept(p, hit + {g}).sweeps == Bump(q.sweeps, g);
    } else {
      assert Hits(p, done + {g}) == hit;
      assert !Stuck(q, g);
    }
  }

  /**
   q is p after a failure of the worker: a log that it can save is its own, free for the next claim; a late failure is
   counted exactly when it was the log of a committed export; and nothing of another group changes.
   */
  ghost predicate FailureAlone(p: Protocol, q: Protocol, worker: Worker) {
    var task := worker.task;
    && (Saves(p, task) ==> Current(q, task) && !Taken(q, task.group))
    && (!Saves(p, task) ==> q.logs == p.logs && q.rows == p.rows)
    && Count(q.lateFailures, task.group) ==
         Count(p.lateFailures, task.group) + (if worker.afterCommit && Saves(p, task) then 1 else 0)
    && forall g: nat :: g != task.group ==> SameLog(p, q, g) && Count(q.lateFailures, g) == Count(p.lateFailures, g)
  }

  predicate SameLog(p: Protocol, q: Protocol, g: nat) {
    (g in q.logs <==> g in p.logs) && (g in p.logs ==> q.logs[g] == p.logs[g] && Count(q.rows, g) == Count(p.rows, g))
  }

  lemma FailingIsAlone(p: Protocol, w: nat, fatal: bool)
    requires w in p.workers
    ensures FailureAlone(p, FailStep(p, w, fatal), p.workers[w])
  {
  }

  lemma CommittingIsAtomic(p: Protocol, w: nat)
    requires w in p.workers && !p.workers[w].afterCommit
    ensures var q, task := CommitStep(p, w), p.workers[w].task;
            && q.exported == p.exported + (if Saves(p, task) then {task.group} else {})
            && (!Saves(p, task) ==>
                  q.logs == p.logs && q.rows == p.rows && q.commits == p.commits && w !in q.workers)
  {
  }

  class Tables {
    var logs: map<nat, LogStatus>
    var rows: map<nat, nat>
    var next: nat
    var exported: set<nat>
    var seen: map<nat, set<nat>>
    var queue: multiset<Task>
    var workers: Workers
    var sweeps: map<nat, nat>
    var lateFailures: map<nat, nat>
    var commits: map<nat, nat>

    constructor ()
      ensures Now() == START
    {
      logs, rows, next, exported, seen, queue := map[], map[], 1, {}, map[], multiset{};
      workers, sweeps, lateFailures, commits := map[], map[], map[], map[];
    }

    function Now(): Protocol
      reads this
    {
      Protocol(logs, rows, next, exported, seen, queue, workers, sweeps, lateFailures, commits)
    }

    /** The query a scheduler starts with. */
    method Ask(scheduler: nat, groups: set<nat>)
      modifies `seen
      ensures Now() == Step(old(Now()), Query(scheduler, groups))
      ensures ExportOutcome.Answers(old(Now()), Now(), scheduler, groups)
    {
      ExportOutcome.QueryListsExactly(Now(), scheduler, groups);
      var answer: set<nat>, todo := {}, groups;
      ghost var now := Now();
      while todo != {}
        modifies {}
        invariant todo <= groups && answer == Answer(now, groups - todo)
        decreases |todo|
      {
        var g :| g in todo;
        AnswerOneMore(now, groups, todo, g);
        if g !in exported && !(g in logs && (logs[g] == InProgress || logs[g] == Complete)) {
          answer := answer + {g};
        }
        todo := todo - {g};
      }
      AnswerToAll(now, groups);
      seen := seen[scheduler := answer];
    }

    /** get_or_create of the log, its reset to Enqueued unless it is queued or taken, and the task in any case. */
    method EnqueueLog(scheduler: nat, group: nat)
      requires StillLists(Now(), scheduler, group)
      modifies `logs, `rows, `next, `queue
      ensures Now() == Step(old(Now()), Enqueue(scheduler, group))
      ensures ExportOutcome.Queues(old(Now()), Now(), group)
    {
      ExportOutcome.EnqueueWritesExactly(Now(), scheduler, group);
      WriteEnqueued(group);
    }

    method WriteEnqueued(group: nat)
      modifies `logs, `rows, `next, `queue
      ensures Now() == EnqueueStep(old(Now()), group)
    {
      if group !in logs {
        logs := logs[group := Enqueued];
        rows := rows[group := next];
        next := next + 1;
      } else if logs[group] != InProgress && logs[group] != Enqueued && logs[group] != Complete {
        logs := logs[group := Enqueued];
      }
      queue := queue + multiset{Task(group, Count(rows, group))};
    }

    /** The loop of schedule_bills_creation and its siblings over the answer; chain is what goes to the task queue. */
    method Schedule(scheduler: nat, groups: seq<nat>, skipped: set<nat>) returns (chain: seq<nat>)
      requires forall g :: g in groups ==> StillLists(Now(), scheduler, g)
      modifies `logs, `rows, `next, `queue
      ensures chain == Unskipped(groups, skipped)
      ensures Now() == Run(old(Now()), EnqueueEach(scheduler, chain))
    {
      chain := [];
      for i := 0 to |groups|
        invariant chain == Unskipped(groups[..i], skipped)
        invariant Now() == Run(old(Now()), EnqueueEach(scheduler, chain))
        invariant seen == old(seen)
      {
        assert groups[..i + 1][..i] == groups[..i];
        if groups[i] in skipped {
          continue;
        }
        EnqueueOneMore(old(Now()), scheduler, chain, groups[i]);
        assert groups[i] in groups && old(StillLists(Now(), scheduler, groups[i]));
        EnqueueLog(scheduler, groups[i]);
        chain := chain + [groups[i]];
      }
      assert groups[..|groups|] == groups;
    }

    /** A task taken from the queue and the first transaction of create_bill and its siblings, under the row lock. */
    method ClaimLog(worker: nat, task: Task, again: bool) returns (claimed: bool)
      requires worker !in workers && task in queue
      modifies `logs, `queue, `workers
      ensures claimed == (worker in workers)
      ensures ExportOutcome.Takes(old(Now()), Now(), worker, task, again)
      ensures Now() == Step(old(Now()), Claim(worker, task, again))
    {
      ExportOutcome.ClaimTakesExactly(Now(), worker, task, again);
      claimed := WriteClaim(worker, task, again);
    }

    method WriteClaim(worker: nat, task: Task, again: bool) returns (claimed: bool)
      requires worker !in workers && task in queue
      modifies `logs, `queue, `workers
      ensures claimed == (worker in workers)
      ensures Now() == ClaimStep(old(Now()), worker, task, again)
    {
      if !again {
        queue := queue - multiset{task};
      }
      if task.group !in logs || Count(rows, task.group) != task.row {
        return false;
      }
      if logs[task.group] != InProgress && logs[task.group] != Complete {
        logs := logs[task.group := InProgress];
        workers := workers[worker := Worker(task, false)];
        return true;
      }
      return false;
    }

    /** Saves a worker's copy of its log: an update, or an insert of the deleted row unless the group has a new one. */
    method SaveWorkersLog(task: Task, status: LogStatus) returns (saved: bool)
      modifies `logs, `rows
      ensures saved == Saves(old(Now()), task)
      ensures Now() == if saved then SaveLog(old(Now()), task, status) else old(Now())
    {
      if task.group in logs && Count(rows, task.group) != task.row {
        return false;
      }
      logs := logs[task.group := status];
      rows := rows[task.group := task.row];
      return true;
    }

    /**
     The second transaction: the export, the completed log and exported_at together, or none of them, in which case
     the worker is gone as well. The bounds of the protocol are kept.
     */
    method CommitExport(worker: nat) returns (committed: bool)
      requires worker in workers && !workers[worker].afterCommit
      modifies `logs, `rows, `exported, `workers, `commits
      ensures committed == Saves(old(Now()), old(workers[worker].task))
      ensures exported == old(exported) + if committed then {old(workers[worker].task.group)} else {}
      ensures !committed ==> logs == old(logs) && rows == old(rows) && commits == old(commits) && worker !in workers
      ensures ExportOutcome.Exports(old(Now()), Now(), worker, old(workers[worker].task))
      ensures Now() == Step(old(Now()), Commit(worker))
      ensures old(Inv(Now())) ==> Inv(Now())
    {
      ExportOutcome.CommitExportsExactly(Now(), worker);
      committed := WriteCommit(worker);
      CommittingIsAtomic(old(Now()), worker);
      if old(Inv(Now())) {
        StepKeepsInv(old(Now()), Commit(worker));
      }
    }

    method WriteCommit(worker: nat) returns (committed: bool)
      requires worker in workers && !workers[worker].afterCommit
      modifies `logs, `rows, `exported, `workers, `commits
      ensures committed == Saves(old(Now()), old(workers[worker].task))
      ensures Now() == CommitStep(old(Now()), worker)
    {
      var task := workers[worker].task;
      committed := SaveWorkersLog(task, Complete);
      if committed {
        exported := exported + {task.group};
        workers := workers[worker := Worker(task, true)];
        commits := Bump(commits, task.group);
      } else {
        workers := workers - {worker};
      }
    }

    /**
     handle_netsuite_exceptions: known errors fail the log, any other is fatal. The worker is gone, nothing becomes or
     stops being exported, no other group's log changes, and a late failure is counted exactly when a completed
     export's log was overwritten. The bounds of the protocol are kept.
     */
    method HandleException(worker: nat, fatal: bool)
      requires worker in workers
      modifies `logs, `rows, `workers, `lateFailures
      ensures Now() == Step(old(Now()), Fail(worker, fatal))
      ensures old(Inv(Now())) ==> Inv(Now())
      ensures exported == old(exported) && commits == old(commits) && worker !in workers
      ensures FailureAlone(old(Now()), Now(), old(workers[worker]))
      ensures ExportOutcome.Fails(old(Now()), Now(), worker, old(workers[worker]), fatal)
    {
      ExportOutcome.FailureWritesExactly(Now(), worker, fatal);
      WriteFailure(worker, fatal);
      FailingIsAlone(old(Now()), worker, fatal);
      if old(Inv(Now())) {
        StepKeepsInv(old(Now()), Fail(worker, fatal));
      }
    }

    method WriteFailure(worker: nat, fatal: bool)
      requires worker in workers
      modifies `logs, `rows, `workers, `lateFailures
      ensures Now() == FailStep(old(Now()), worker, fatal)
    {
      var task, late := workers[worker].task, workers[worker].afterCommit;
      var saved;
      if fatal {
        saved := SaveWorkersLog(task, Fatal);
      } else {
        saved := SaveWorkersLog(task, Failed);
      }
      if saved && late {
        lateFailures := Bump(lateFailures, task.group);
      }
      workers := workers - {worker};
    }

    method SweepRow(g: nat)
      modifies `logs, `sweeps
      ensures Now() == SweptRow(old(Now()), g)
    {
      if g in logs && (logs[g] == Enqueued || logs[g] == InProgress) {
        logs := logs[g := Failed];
        sweeps := Bump(sweeps, g);
      }
    }

    /**
     re_export_stuck_exports: every queued or claimed log among the stale ones fails and is counted once; no other
     log and no other count changes.
     */
    method ReExportStuckExports(stale: seq<nat>)
      modifies `logs, `sweeps
      ensures logs.Keys == old(logs.Keys)
      ensures forall g :: g in logs ==> logs[g] == if g in stale && Stuck(old(Now()), g) then Failed else old(logs[g])
      ensures forall g: nat ::
                Count(sweeps, g) == old(Count(sweeps, g)) + if g in stale && Stuck(old(Now()), g) then 1 else 0
      ensures ExportOutcome.FailsStuck(old(Now()), Now(), Elems(stale))
      ensures Now() == Step(old(Now()), Sweep(Elems(stale)))
    {
      ExportOutcome.SweepFailsExactly(Now(), Elems(stale));
      SweepRows(stale);
      SweptEachIsSwept(old(Now()), stale);
      CountAfterSweep(old(Now()), Elems(stale));
    }

    /** The bulk status update, row by row. */
    method SweepRows(stale: seq<nat>)
      modifies `logs, `sweeps
      ensures Now() == SweptEach(old(Now()), stale)
    {
      for i := 0 to |stale|
        invariant Now() == SweptEach(old(Now()), stale[..i])
      {
        assert stale[..i + 1][..i] == stale[..i];
        SweepRow(stale[i]);
      }
      assert stale[..|stale|] == stale;
    }

    /** A change of the export settings: logs that are not taken are deleted. */
    method ClearUntakenLogs(groups: set<nat>)
      modifies `logs
      ensures forall g: nat :: Taken(Now(), g) <==> Taken(old(Now()), g)
      ensures forall g :: g in logs <==> g in old(logs) && (g in groups ==> Taken(old(Now()), g))
      ensures ExportOutcome.Deletes(old(Now()), Now(), groups)
      ensures Now() == Step(old(Now()), ClearLogs(groups))
    {
      ExportOutcome.ClearDeletesExactly(Now(), groups);
      DeleteUntaken(groups);
    }

    method DeleteUntaken(groups: set<nat>)
      modifies `logs
      ensures Now() == Step(old(Now()), ClearLogs(groups))
    {
      logs := map g | g in logs && (g in groups ==> logs[g] == InProgress || logs[g] == Complete) :: logs[g];
      assert Now() == Step(old(Now()), ClearLogs(groups));
    }
  }

  lemma CountAfterSweep(p: Protocol, stale: set<nat>)
    ensures forall g: nat ::
              Count(Step(p, Sweep(stale)).sweeps, g) == Count(p.sweeps, g) + if g in stale && Stuck(p, g) then 1 else 0
  {
  }
}
