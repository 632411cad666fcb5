/** What each step of the export protocol does to the log of every group, status by status. */
module ExportOutcome {
  import opened Common
  import opened TaskLogs
  import opened ExportProtocol

  /** The status of the group's log; None without a log. */
  function StatusOf(p: Protocol, g: nat): Option<LogStatus> {
    if g in p.logs then Some(p.logs[g]) else None
  }

  /** A log that failed for good or not. */
  predicate IsFailed(status: Option<LogStatus>) {
    status == Some(Failed) || status == Some(Fatal)
  }

  /** Nothing about the group differs, but for the answers, tasks and workers that name it. */
  predicate SameGroup(p: Protocol, q: Protocol, g: nat) {
    && StatusOf(p, g) == StatusOf(q, g) && Count(p.rows, g) == Count(q.rows, g)
    && (g in p.exported <==> g in q.exported) && SameHistory(p, q, g)
  }

  predicate SameHistory(p: Protocol, q: Protocol, g: nat) {
    && Count(p.sweeps, g) == Count(q.sweeps, g) && Count(p.lateFailures, g) == Count(q.lateFailures, g)
    && Count(p.commits, g) == Count(q.commits, g)
  }

  ghost predicate SameOthers(p: Protocol, q: Protocol, g: nat) {
    forall h: nat :: h != g ==> SameGroup(p, q, h)
  }

  // ---------------------------------------------------------------- schedulers

  /**
   A query answers with the groups asked for that are not exported and have no log, or one that is queued or has
   failed; it changes nothing but this answer.
   */
  ghost predicate Answers(p: Protocol, q: Protocol, n: nat, groups: set<nat>) {
    && q == p.(seen := q.seen)
    && (forall m: nat, g: nat :: m != n ==> (StillLists(q, m, g) <==> StillLists(p, m, g)))
    && forall g: nat :: StillLists(q, n, g) <==> g in groups && g !in p.exported && IsFree(StatusOf(p, g))
  }

  /** No log, or one that is queued or has failed. */
  predicate IsFree(status: Option<LogStatus>) {
    status == None || status == Some(Enqueued) || IsFailed(status)
  }

  lemma QueryListsExactly(p: Protocol, n: nat, groups: set<nat>)
    ensures Answers(p, Step(p, Query(n, groups)), n, groups)
  {
  }

  /**
   Queueing a listed group adds one task for its log. A group without a log gets one under the next free id, a log
   that failed is queued again, and any other log stays what it is.
   */
  ghost predicate Queues(p: Protocol, q: Protocol, g: nat) {
    var status := StatusOf(p, g);
    && StatusOf(q, g) == (if status == None || IsFailed(status) then Some(Enqueued) else status)
    && Count(q.rows, g) == (if status == None then p.next else Count(p.rows, g))
    && q.next == (if status == None then p.next + 1 else p.next)
    && q.queue == p.queue + multiset{Task(g, Count(q.rows, g))}
    && SameOthers(p, q, g) && q == p.(logs := q.logs, rows := q.rows, next := q.next, queue := q.queue)
  }

  lemma EnqueueWritesExactly(p: Protocol, n: nat, g: nat)
    requires StillLists(p, n, g)
    ensures Queues(p, Step(p, Enqueue(n, g)), g)
  {
  }

  /** A group that the answer does not list is not queued. */
  lemma UnlistedIsNotQueued(p: Protocol, n: nat, g: nat)
    requires n !in p.seen || g !in p.seen[n]
    ensures Step(p, Enqueue(n, g)) == p
  {
  }

  // ---------------------------------------------------------------- workers

  /**
   A worker that takes a task gets the log exactly when it exists under the row that the task names and is queued or
   has failed; the log is in progress then. The task leaves the queue unless the broker keeps it, in either case.
   */
  ghost predicate Takes(p: Protocol, q: Protocol, w: nat, task: Task, again: bool) {
    var g, status := task.group, StatusOf(p, task.group);
    var claimed := (status == Some(Enqueued) || IsFailed(status)) && Count(p.rows, g) == task.row;
    && StatusOf(q, g) == (if claimed then Some(InProgress) else status)
    && q.workers == (if claimed then p.workers[w := Worker(task, false)] else p.workers)
    && q.queue == (if again then p.queue else p.queue - multiset{task})
    && SameOthers(p, q, g) && q == p.(logs := q.logs, workers := q.workers, queue := q.queue)
  }

  lemma ClaimTakesExactly(p: Protocol, w: nat, task: Task, again: bool)
    requires w !in p.workers && task in p.queue
    ensures Takes(p, Step(p, Claim(w, task, again)), w, task, again)
  {
    if Current(p, task) && !Taken(p, task.group) {
      ClaimGranted(p, w, task, again);
    } else {
      ClaimRefused(p, w, task, again);
    }
    forall h: nat | h != task.group ensures SameGroup(p, Step(p, Claim(w, task, again)), h) {
      ClaimLeavesOthers(p, w, task, again, h);
    }
  }

  lemma ClaimLeavesOthers(p: Protocol, w: nat, task: Task, again: bool, h: nat)
    requires h != task.group
    ensures SameGroup(p, Step(p, Claim(w, task, again)), h)
  {
    ClaimWritesOnly(p, w, task, again);
  }

  lemma ClaimIdle(p: Protocol, w: nat, task: Task, again: bool)
    requires w in p.workers || task !in p.queue
    ensures Step(p, Claim(w, task, again)) == p
  {
  }

  lemma ClaimRefused(p: Protocol, w: nat, task: Task, again: bool)
    requires w !in p.workers && task in p.queue && !(Current(p, task) && !Taken(p, task.group))
    ensures Step(p, Claim(w, task, again)) == p.(queue := if again then p.queue else p.queue - multiset{task})
  {
  }

  lemma ClaimGranted(p: Protocol, w: nat, task: Task, again: bool)
    requires w !in p.workers && task in p.queue && Current(p, task) && !Taken(p, task.group)
    ensures Step(p, Claim(w, task, again)) ==
              p.(logs := p.logs[task.group := InProgress], workers := p.workers[w := Worker(task, false)],
                 queue := if again then p.queue else p.queue - multiset{task})
  {
  }

  lemma ClaimWritesOnly(p: Protocol, w: nat, task: Task, again: bool)
    ensures var q := Step(p, Claim(w, task, again));
            && q == p.(logs := q.logs, workers := q.workers, queue := q.queue)
            && (q.logs == p.logs || q.logs == p.logs[task.group := InProgress])
  {
    if w in p.workers || task !in p.queue {
      ClaimIdle(p, w, task, again);
    } else if Current(p, task) && !Taken(p, task.group) {
      ClaimGranted(p, w, task, again);
    } else {
      ClaimRefused(p, w, task, again);
    }
  }

  /** The log of the task can be saved: it is still there, or gone without another log in its place. */
  predicate CanSave(p: Protocol, task: Task) {
    StatusOf(p, task.group) == None || Count(p.rows, task.group) == task.row
  }

  /**
   A commit completes the log, exports the group and counts once, all of it exactly when the worker's log can be saved.
   Otherwise only the worker is gone.
   */
  ghost predicate Exports(p: Protocol, q: Protocol, w: nat, task: Task) {
    var g := task.group;
    if CanSave(p, task) then
      && StatusOf(q, g) == Some(Complete) && Count(q.rows, g) == task.row
      && q.exported == p.exported + {g} && q.workers == p.workers[w := Worker(task, true)]
      && Count(q.commits, g) == Count(p.commits, g) + 1
      && SameOthers(p, q, g)
      && q == p.(logs := q.logs, rows := q.rows, exported := q.exported, workers := q.workers, commits := q.commits)
    else q == p.(workers := p.workers - {w})
  }

  lemma CommitExportsExactly(p: Protocol, w: nat)
    requires w in p.workers && !p.workers[w].afterCommit
    ensures Exports(p, Step(p, Commit(w)), w, p.workers[w].task)
  {
    CommitWhole(p, w);
  }

  lemma CommitWhole(p: Protocol, w: nat)
    requires w in p.workers && !p.workers[w].afterCommit
    ensures var task := p.workers[w].task; var g := task.group;
            Step(p, Commit(w)) ==
              if g !in p.logs || task.row == Count(p.rows, g) then
                p.(logs := p.logs[g := Complete], rows := p.rows[g := task.row], exported := p.exported + {g},
                   workers := p.workers[w := Worker(task, true)], commits := Bump(p.commits, g))
              else p.(workers := p.workers - {w})
  {
    assert Step(p, Commit(w)) == CommitStep(p, w);
  }

  lemma FailureWhole(p: Protocol, w: nat, fatal: bool)
    requires w in p.workers
    ensures var task, late := p.workers[w].task, p.workers[w].afterCommit; var g := task.group;
            Step(p, Fail(w, fatal)) ==
              if g !in p.logs || task.row == Count(p.rows, g) then
                p.(logs := p.logs[g := if fatal then Fatal else Failed], rows := p.rows[g := task.row],
                   workers := p.workers - {w},
                   lateFailures := if late then Bump(p.lateFailures, g) else p.lateFailures)
              else p.(workers := p.workers - {w})
  {
    assert Step(p, Fail(w, fatal)) == FailStep(p, w, fatal);
  }

  /**
   A failure leaves the worker's log fatal or failed, by the kind of the error, when it can be saved, and counts as late
   when the export was committed before. Whether the group is exported does not change.
   */
  ghost predicate Fails(p: Protocol, q: Protocol, w: nat, worker: Worker, fatal: bool) {
    var task, g := worker.task, worker.task.group;
    && q == p.(logs := q.logs, rows := q.rows, workers := p.workers - {w}, lateFailures := q.lateFailures)
    && SameOthers(p, q, g)
    && if CanSave(p, task) then
         && StatusOf(q, g) == Some(if fatal then Fatal else Failed) && Count(q.rows, g) == task.row
         && Count(q.lateFailures, g) == Count(p.lateFailures, g) + (if worker.afterCommit then 1 else 0)
       else q.logs == p.logs && q.rows == p.rows && q.lateFailures == p.lateFailures
  }

  lemma FailureWritesExactly(p: Protocol, w: nat, fatal: bool)
    requires w in p.workers
    ensures Fails(p, Step(p, Fail(w, fatal)), w, p.workers[w], fatal)
  {
    FailureWhole(p, w, fatal);
    forall h: nat | h != p.workers[w].task.group ensures SameGroup(p, Step(p, Fail(w, fatal)), h) {
      FailureLeavesOthers(p, w, fatal, h);
    }
  }

  lemma FailureLeavesOthers(p: Protocol, w: nat, fatal: bool, h: nat)
    requires w in p.workers && h != p.workers[w].task.group
    ensures SameGroup(p, Step(p, Fail(w, fatal)), h)
  {
    var q, task := Step(p, Fail(w, fatal)), p.workers[w].task;
    FailureWhole(p, w, fatal);
    if task.group !in p.logs || task.row == Count(p.rows, task.group) {
      assert q.exported == p.exported && q.sweeps == p.sweeps && q.commits == p.commits;
      assert StatusOf(q, h) == StatusOf(p, h) && Count(q.rows, h) == Count(p.rows, h);
    }
  }

  /** A worker returns only after its commit, and that changes nothing else. */
  lemma ReturnLeavesTables(p: Protocol, w: nat)
    ensures Step(p, Return(w)) ==
            if w in p.workers && p.workers[w].afterCommit then p.(workers := p.workers - {w}) else p
  {
  }

  // ---------------------------------------------------------------- the sweeper and the settings

  /** The sweeper fails exactly the named logs that are queued or in progress, and counts each of them once. */
  ghost predicate FailsStuck(p: Protocol, q: Protocol, groups: set<nat>) {
    q == p.(logs := q.logs, sweeps := q.sweeps)
    && forall g: nat :: FailsIfStuck(p, q, g, g in groups)
  }

  predicate FailsIfStuck(p: Protocol, q: Protocol, g: nat, named: bool) {
    var hit := named && (StatusOf(p, g) == Some(Enqueued) || StatusOf(p, g) == Some(InProgress));
    && StatusOf(q, g) == (if hit then Some(Failed) else StatusOf(p, g))
    && Count(q.sweeps, g) == Count(p.sweeps, g) + (if hit then 1 else 0)
  }

  lemma SweepFailsExactly(p: Protocol, groups: set<nat>)
    ensures FailsStuck(p, Step(p, Sweep(groups)), groups)
  {
    var q := Step(p, Sweep(groups));
    forall g: nat ensures FailsIfStuck(p, q, g, g in groups) {
      assert g in Hits(p, groups) <==> g in groups && Stuck(p, g);
    }
  }

  /** A change of the settings deletes exactly the named logs that are queued or have failed. */
  ghost predicate Deletes(p: Protocol, q: Protocol, groups: set<nat>) {
    q == p.(logs := q.logs)
    && forall g: nat :: StatusOf(q, g) == if g in groups && IsFree(StatusOf(p, g)) then None else StatusOf(p, g)
  }

  lemma ClearDeletesExactly(p: Protocol, groups: set<nat>)
    ensures Deletes(p, Step(p, ClearLogs(groups)), groups)
  {
  }

  // ---------------------------------------------------------------- the history of a run

  /** The step commits an export of the group. */
  predicate Commits(p: Protocol, e: Event, g: nat) {
    e.Commit? && e.worker in p.workers
    && var worker := p.workers[e.worker];
       !worker.afterCommit && worker.task.group == g && (g !in p.logs || Count(p.rows, g) == worker.task.row)
  }

  /** The step overwrites the log of the group with a failure although its export was committed. */
  predicate FailsLate(p: Protocol, e: Event, g: nat) {
    e.Fail? && e.worker in p.workers
    && var worker := p.workers[e.worker];
       worker.afterCommit && worker.task.group == g && (g !in p.logs || Count(p.rows, g) == worker.task.row)
  }

  /** The step takes a queued or claimed log of the group for a stuck one. */
  predicate Sweeps(p: Protocol, e: Event, g: nat) {
    e.Sweep? && g in e.groups && g in p.logs && (p.logs[g] == Enqueued || p.logs[g] == InProgress)
  }

  /** How many steps of the run did this to the group. */
  function Tally(events: seq<Event>, did: (Protocol, Event, nat) -> bool, g: nat): nat {
    if events == [] then 0
    else
      var front, e := events[..|events| - 1], events[|events| - 1];
      Tally(front, did, g) + if did(Run(START, front), e, g) then 1 else 0
  }

  lemma CommitsOfStep(p: Protocol, e: Event, g: nat)
    ensures Count(Step(p, e).commits, g) == Count(p.commits, g) + if Commits(p, e, g) then 1 else 0
  {
  }

  lemma LateFailuresOfFailure(p: Protocol, w: nat, fatal: bool, g: nat)
    ensures Count(Step(p, Fail(w, fatal)).lateFailures, g) ==
              Count(p.lateFailures, g) + if FailsLate(p, Fail(w, fatal), g) then 1 else 0
  {
    if w in p.workers {
      FailureWhole(p, w, fatal);
    }
  }

  lemma CommitKeepsCounts(p: Protocol, w: nat)
    ensures Step(p, Commit(w)).sweeps == p.sweeps && Step(p, Commit(w)).lateFailures == p.lateFailures
  {
    assert Step(p, Commit(w)) == CommitStep(p, w);
  }

  lemma OnlyFailuresCount(p: Protocol, e: Event)
    requires !e.Fail?
    ensures Step(p, e).lateFailures == p.lateFailures
  {
    match e
    case Claim(w, task, again) => ClaimWritesOnly(p, w, task, again);
    case Commit(w) => CommitKeepsCounts(p, w);
    case _ =>
  }

  lemma OnlySweepsCount(p: Protocol, e: Event)
    requires !e.Sweep?
    ensures Step(p, e).sweeps == p.sweeps
  {
    match e
    case Claim(w, task, again) => ClaimWritesOnly(p, w, task, again);
    case Commit(w) => CommitKeepsCounts(p, w);
    case Fail(w, fatal) =>
      if w in p.workers {
        FailureWhole(p, w, fatal);
      }
    case _ =>
  }

  lemma LateFailuresOfStep(p: Protocol, e: Event, g: nat)
    ensures Count(Step(p, e).lateFailures, g) == Count(p.lateFailures, g) + if FailsLate(p, e, g) then 1 else 0
  {
    if e.Fail? {
      LateFailuresOfFailure(p, e.worker, e.fatal, g);
    } else {
      OnlyFailuresCount(p, e);
    }
  }

  lemma SweepsOfStep(p: Protocol, e: Event, g: nat)
    ensures Count(Step(p, e).sweeps, g) == Count(p.sweeps, g) + if Sweeps(p, e, g) then 1 else 0
  {
    if e.Sweep? {
      SweepFailsExactly(p, e.groups);
      assert FailsIfStuck(p, Step(p, e), g, g in e.groups);
    } else {
      OnlySweepsCount(p, e);
    }
  }

  lemma {:induction false} HistoryIsTally(events: seq<Event>, g: nat)
    ensures var p := Run(START, events);
            && Count(p.commits, g) == Tally(events, Commits, g)
            && Count(p.lateFailures, g) == Tally(events, FailsLate, g)
            && Count(p.sweeps, g) == Tally(events, Sweeps, g)
  {
    if events == [] {
    } else {
      var front, e := events[..|events| - 1], events[|events| - 1];
      HistoryIsTally(front, g);
      CommitsOfStep(Run(START, front), e, g);
      LateFailuresOfStep(Run(START, front), e, g);
      SweepsOfStep(Run(START, front), e, g);
    }
  }

  /**
   In any run a group is exported exactly when some step committed it, and the steps that commit it are at most one
   more than those that swept its log or failed after a commit.
   */
  lemma ExportsAreCounted(events: seq<Event>, g: nat)
    ensures g in Run(START, events).exported <==> Tally(events, Commits, g) > 0
    ensures Tally(events, Commits, g) <= Tally(events, Sweeps, g) + Tally(events, FailsLate, g) + 1
  {
    HistoryIsTally(events, g);
    RunKeepsInv(events);
    assert Bounded(ViewOf(Run(START, events), g));
  }
}
