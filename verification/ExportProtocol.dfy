/**
 The export protocol: schedulers enqueue task logs, workers claim them under a row lock, commit or fail,
 and a sweeper resets logs that look stuck. Any number of schedulers and workers interleave.
 */
module ExportProtocol {
  import opened Common
  import opened TaskLogs

  /** An export task names its group and the row of the log it was made for. */
  datatype Task = Task(group: nat, row: nat)

  /** A worker between its claim and its return; afterCommit once its export is stored. */
  datatype Worker = Worker(task: Task, afterCommit: bool)

  type Workers = map<nat, Worker>

  /**
   logs has at most one log per expense group, and rows its row id, of which next is the next free one: a log that
   was deleted comes back under another id. exported holds the groups with exported_at set; seen holds the answer
   each scheduler works through; queue holds the export tasks waiting for a worker. The counters are history: sweeps
   and failures after a commit, and commits, of the logs of each group.
   */
  datatype Protocol = Protocol(
    logs: map<nat, LogStatus>,
    rows: map<nat, nat>,
    next: nat,
    exported: set<nat>,
    seen: map<nat, set<nat>>,
    queue: multiset<Task>,
    workers: Workers,
    sweeps: map<nat, nat>,
    lateFailures: map<nat, nat>,
    commits: map<nat, nat>)

  datatype Event =
    | Query(scheduler: nat, groups: set<nat>)
    | Enqueue(scheduler: nat, group: nat)
    | Claim(worker: nat, task: Task, again: bool)
    | Commit(worker: nat)
    | Fail(worker: nat, fatal: bool)
    | Return(worker: nat)
    | Sweep(groups: set<nat>)
    | ClearLogs(groups: set<nat>)

  function Count(m: map<nat, nat>, g: nat): nat {
    if g in m then m[g] else 0
  }

  function Bump(m: map<nat, nat>, g: nat): map<nat, nat> {
    m[g := Count(m, g) + 1]
  }

  /** Claimed or done: the statuses neither a scheduler nor a claim takes over. */
  predicate Taken(p: Protocol, g: nat) {
    g in p.logs && (p.logs[g] == InProgress || p.logs[g] == Complete)
  }

  /** The scheduler's query: not exported, and no log that is taken. */
  predicate Schedulable(p: Protocol, g: nat) {
    g !in p.exported && !Taken(p, g)
  }

  function Answer(p: Protocol, groups: set<nat>): set<nat> {
    set g | g in groups && Schedulable(p, g)
  }

  /** get_or_create, then a write unless the log is already queued or taken. */
  predicate ResetsLog(p: Protocol, g: nat) {
    g !in p.logs || (p.logs[g] != Enqueued && !Taken(p, g))
  }

  /** The scheduler's answer still lists the group. */
  predicate StillLists(p: Protocol, scheduler: nat, g: nat) {
    scheduler in p.seen && g in p.seen[scheduler]
  }

  predicate Stuck(p: Protocol, g: nat) {
    g in p.logs && (p.logs[g] == Enqueued || p.logs[g] == InProgress)
  }

  /** The row a task of the group names when a scheduler makes one: that of its log, created if need be. */
  function RowFor(p: Protocol, g: nat): nat {
    if g in p.logs then Count(p.rows, g) else p.next
  }

  /** The log the task names still exists. */
  predicate Current(p: Protocol, task: Task) {
    task.group in p.logs && task.row == Count(p.rows, task.group)
  }

  function EnqueueStep(p: Protocol, g: nat): (q: Protocol)
    ensures q.seen == p.seen && q.exported == p.exported && q.queue == p.queue + multiset{Task(g, RowFor(p, g))}
    ensures q.workers == p.workers && q.commits == p.commits
    ensures q.logs.Keys == p.logs.Keys + {g} && Count(q.rows, g) == RowFor(p, g)
    ensures forall h: nat :: h != g ==> Count(q.rows, h) == Count(p.rows, h)
  {
    var create := g !in p.logs;
    p.(logs := if ResetsLog(p, g) then p.logs[g := Enqueued] else p.logs,
       rows := if create then p.rows[g := p.next] else p.rows,
       next := if create then p.next + 1 else p.next,
       queue := p.queue + multiset{Task(g, RowFor(p, g))})
  }

  function ClaimStep(p: Protocol, w: nat, task: Task, again: bool): (q: Protocol)
    ensures q.seen == p.seen && q.commits == p.commits
    ensures forall v :: v in p.workers ==> v in q.workers && q.workers[v] == p.workers[v]
  {
    if w in p.workers || task !in p.queue then p
    else
      var p' := p.(queue := if again then p.queue else p.queue - multiset{task});
      if Current(p, task) && !Taken(p, task.group) then
        p'.(logs := p.logs[task.group := InProgress], workers := p.workers[w := Worker(task, false)])
      else p'
  }

  /**
   Saving a worker's copy of its log updates the row or, if it was deleted, inserts it again; that violates the
   uniqueness of the group when the group has another log by then.
   */
  predicate Saves(p: Protocol, task: Task) {
    task.group in p.logs ==> task.row == Count(p.rows, task.group)
  }

  function SaveLog(p: Protocol, task: Task, status: LogStatus): Protocol {
    p.(logs := p.logs[task.group := status], rows := p.rows[task.group := task.row])
  }

  function CommitStep(p: Protocol, w: nat): (q: Protocol)
    ensures q.seen == p.seen && q.queue == p.queue
    ensures forall v :: v in p.workers && v != w ==> v in q.workers && q.workers[v] == p.workers[v]
  {
    if w in p.workers && !p.workers[w].afterCommit then
      var task := p.workers[w].task;
      if Saves(p, task) then
        SaveLog(p, task, Complete).(exported := p.exported + {task.group},
          workers := p.workers[w := Worker(task, true)], commits := Bump(p.commits, task.group))
      else p.(workers := p.workers - {w})
    else p
  }

  function FailStep(p: Protocol, w: nat, fatal: bool): (q: Protocol)
    ensures q.seen == p.seen && q.queue == p.queue && q.commits == p.commits
    ensures q.workers == p.workers - {w}
  {
    if w in p.workers then
      var task, late := p.workers[w].task, p.workers[w].afterCommit;
      var p' := p.(workers := p.workers - {w});
      if Saves(p, task) then
        SaveLog(p', task, if fatal then Fatal else Failed)
          .(lateFailures := if late then Bump(p.lateFailures, task.group) else p.lateFailures)
      else p'
    else p
  }

  /** The stuck logs among those of the groups. */
  function Hits(p: Protocol, groups: set<nat>): set<nat> {
    set g | g in groups && Stuck(p, g)
  }

  /** These logs failed, and counted as swept. */
  function Swept(p: Protocol, hit: set<nat>): Protocol {
    p.(logs := map g | g in p.logs :: if g in hit then Failed else p.logs[g],
       sweeps := map g | g in p.sweeps.Keys + hit :: Count(p.sweeps, g) + (if g in hit then 1 else 0))
  }

  /**
   One step. Enqueue works through a query answered earlier and adds a task whatever the log says. Claim takes a
   task from the queue, which the broker may deliver again; the worker claims the log the task names unless that is
   taken or gone, also when the group has another log by then. A commit or a failure saves the log; when that is not
   possible the commit is rolled back and the handler raises as well. After the commit the handler overwrites a
   completed log. ClearLogs is a change of the export settings, which deletes logs that are not taken.
   */
  function Step(p: Protocol, e: Event): Protocol {
    match e
    case Query(n, groups) => p.(seen := p.seen[n := Answer(p, groups)])
    case Enqueue(n, g) => if StillLists(p, n, g) then EnqueueStep(p, g) else p
    case Claim(w, task, again) => ClaimStep(p, w, task, again)
    case Commit(w) => CommitStep(p, w)
    case Fail(w, fatal) => FailStep(p, w, fatal)
    case Return(w) =>
      if w in p.workers && p.workers[w].afterCommit then p.(workers := p.workers - {w}) else p
    case Sweep(groups) => Swept(p, Hits(p, groups))
    case ClearLogs(groups) => p.(logs := map g | g in p.logs && (g in groups ==> Taken(p, g)) :: p.logs[g])
  }

  function Run(p: Protocol, events: seq<Event>): Protocol {
    if events == [] then p else Step(Run(p, events[..|events| - 1]), events[|events| - 1])
  }

  const START := Protocol(map[], map[], 1, {}, map[], multiset{}, map[], map[], map[], map[])

  // ---------------------------------------------------------------- counting workers

  /** The workers between claim and return on g, and those of them that have not committed. */
  function Holding(workers: Workers, g: nat): set<nat> {
    set w | w in workers && workers[w].task.group == g
  }

  function Exporting(workers: Workers, g: nat): set<nat> {
    set w | w in workers && workers[w].task.group == g && !workers[w].afterCommit
  }

  /** What the protocol holds of one group. */
  datatype View = View(log: Option<LogStatus>, exported: bool, holding: nat, exporting: nat,
                       sweeps: nat, lateFailures: nat, commits: nat)

  function ViewOf(p: Protocol, g: nat): View {
    View(if g in p.logs then Some(p.logs[g]) else None, g in p.exported,
         |Holding(p.workers, g)|, |Exporting(p.workers, g)|,
         Count(p.sweeps, g), Count(p.lateFailures, g), Count(p.commits, g))
  }

  function OneIfTaken(log: Option<LogStatus>): nat {
    if log == Some(InProgress) || log == Some(Complete) then 1 else 0
  }

  /** What bounds concurrent work and repeated commits on one log, in every reachable state. */
  predicate Bounded(v: View) {
    && v.holding <= v.sweeps + OneIfTaken(v.log)
    && v.commits + v.exporting <= v.sweeps + v.lateFailures + OneIfTaken(v.log)
    && (v.commits > 0 <==> v.exported)
    && (v.log == Some(Complete) ==> v.exported)
    && (v.exported && v.sweeps == 0 && v.lateFailures == 0 ==> v.log == Some(Complete) && v.exporting == 0)
  }

  ghost predicate Inv(p: Protocol) {
    forall g: nat :: Bounded(ViewOf(p, g))
  }

  lemma HoldingAfterClaim(workers: Workers, w: nat, task: Task, g: nat)
    requires w !in workers
    ensures |Holding(workers[w := Worker(task, false)], g)| == |Holding(workers, g)| + if g == task.group then 1 else 0
  {
    var after := Holding(workers[w := Worker(task, false)], g);
    if g == task.group {
      assert after == Holding(workers, g) + {w};
    } else {
      assert after == Holding(workers, g);
    }
  }

  lemma ExportingAfterClaim(workers: Workers, w: nat, task: Task, g: nat)
    requires w !in workers
    ensures |Exporting(workers[w := Worker(task, false)], g)| ==
            |Exporting(workers, g)| + if g == task.group then 1 else 0
  {
    var after := Exporting(workers[w := Worker(task, false)], g);
    if g == task.group {
      assert after == Exporting(workers, g) + {w};
    } else {
      assert after == Exporting(workers, g);
    }
  }

  lemma WorkersAfterCommit(workers: Workers, w: nat, g: nat)
    requires w in workers && !workers[w].afterCommit
    ensures var task := workers[w].task; var after := workers[w := Worker(task, true)];
            && Holding(after, g) == Holding(workers, g)
            && |Exporting(workers, g)| == |Exporting(after, g)| + (if g == task.group then 1 else 0)
  {
    var after := workers[w := Worker(workers[w].task, true)];
    if g == workers[w].task.group {
      assert Exporting(workers, g) == Exporting(after, g) + {w};
    } else {
      assert Exporting(workers, g) == Exporting(after, g);
    }
  }

  lemma HoldingAfterLeaving(workers: Workers, w: nat, g: nat)
    requires w in workers
    ensures |Holding(workers, g)| == |Holding(workers - {w}, g)| + (if g == workers[w].task.group then 1 else 0)
  {
    var others := workers - {w};
    assert others.Keys == workers.Keys - {w} && forall v :: v in others ==> others[v] == workers[v];
    var rest := Holding(others, g);
    if g == workers[w].task.group {
      assert w !in rest;
      assert Holding(workers, g) == rest + {w};
    } else {
      assert Holding(workers, g) == rest;
    }
  }

  predicate Exports(worker: Worker, g: nat) {
    worker.task.group == g && !worker.afterCommit
  }

  lemma ExportingAfterLeaving(workers: Workers, w: nat, g: nat)
    requires w in workers
    ensures |Exporting(workers, g)| == |Exporting(workers - {w}, g)| + (if Exports(workers[w], g) then 1 else 0)
    ensures Exporting(workers - {w}, g) <= Exporting(workers, g)
    ensures Exports(workers[w], g) ==> Exporting(workers, g) != {}
  {
    var others := workers - {w};
    assert others.Keys == workers.Keys - {w} && forall v :: v in others ==> others[v] == workers[v];
    var rest := Exporting(others, g);
    if Exports(workers[w], g) {
      assert w !in rest;
      assert Exporting(workers, g) == rest + {w};
    } else {
      assert Exporting(workers, g) == rest;
    }
  }

  // ---------------------------------------------------------------- every step keeps the bounds

  lemma EnqueueView(p: Protocol, h: nat, g: nat)
    ensures var v, v' := ViewOf(p, g), ViewOf(EnqueueStep(p, h), g);
            v' == v || (OneIfTaken(v.log) == 0 && v' == v.(log := Some(Enqueued)))
  {
  }

  lemma SchedulingView(p: Protocol, e: Event, g: nat)
    requires e.Query? || e.Enqueue? || e.ClearLogs?
    ensures var v, v' := ViewOf(p, g), ViewOf(Step(p, e), g);
            v' == v || (OneIfTaken(v.log) == 0 && (v' == v.(log := Some(Enqueued)) || v' == v.(log := None)))
  {
    if e.Enqueue? {
      EnqueueView(p, e.group, g);
    }
  }

  lemma QueueView(p: Protocol, queue: multiset<Task>, g: nat)
    ensures ViewOf(p.(queue := queue), g) == ViewOf(p, g)
  {
  }

  lemma TakeView(p: Protocol, w: nat, task: Task, queue: multiset<Task>, g: nat)
    requires w !in p.workers
    ensures var v := ViewOf(p, g);
            var p' := p.(queue := queue, logs := p.logs[task.group := InProgress],
                         workers := p.workers[w := Worker(task, false)]);
            ViewOf(p', g) ==
              if g == task.group
              then v.(log := Some(InProgress), holding := v.holding + 1, exporting := v.exporting + 1) else v
  {
    HoldingAfterClaim(p.workers, w, task, g);
    ExportingAfterClaim(p.workers, w, task, g);
  }

  lemma ClaimView(p: Protocol, w: nat, task: Task, again: bool, g: nat)
    ensures var v, v' := ViewOf(p, g), ViewOf(ClaimStep(p, w, task, again), g);
            || v' == v
            || (OneIfTaken(v.log) == 0
                && v' == v.(log := Some(InProgress), holding := v.holding + 1, exporting := v.exporting + 1))
  {
    if w !in p.workers && task in p.queue {
      var queue := if again then p.queue else p.queue - multiset{task};
      if Current(p, task) && !Taken(p, task.group) {
        TakeView(p, w, task, queue, g);
      } else {
        QueueView(p, queue, g);
      }
    }
  }

  lemma SaveView(p: Protocol, task: Task, status: LogStatus, g: nat)
    ensures ViewOf(SaveLog(p, task, status), g) ==
              if g == task.group then ViewOf(p, g).(log := Some(status)) else ViewOf(p, g)
  {
  }

  lemma LeaveView(p: Protocol, w: nat, g: nat)
    requires w in p.workers
    ensures var v, v' := ViewOf(p, g), ViewOf(p.(workers := p.workers - {w}), g);
            && v == v'.(holding := v.holding, exporting := v.exporting)
            && v.holding == v'.holding + (if g == p.workers[w].task.group then 1 else 0)
            && v.exporting == v'.exporting + (if Exports(p.workers[w], g) then 1 else 0)
  {
    HoldingAfterLeaving(p.workers, w, g);
    ExportingAfterLeaving(p.workers, w, g);
  }

  lemma StoreView(p: Protocol, w: nat, g: nat)
    requires w in p.workers && !p.workers[w].afterCommit
    ensures var v, task := ViewOf(p, g), p.workers[w].task;
            var p' := p.(exported := p.exported + {task.group}, workers := p.workers[w := Worker(task, true)],
                         commits := Bump(p.commits, task.group));
            if g != task.group then ViewOf(p', g) == v
            else v.exporting > 0
                 && ViewOf(p', g) == v.(exported := true, exporting := v.exporting - 1, commits := v.commits + 1)
  {
    WorkersAfterCommit(p.workers, w, g);
  }

  lemma CommitView(p: Protocol, w: nat, g: nat)
    ensures var v, v' := ViewOf(p, g), ViewOf(CommitStep(p, w), g);
            || v' == v
            || (v.exporting > 0
                && v' == v.(log := Some(Complete), exported := true,
                            exporting := v.exporting - 1, commits := v.commits + 1))
            || (v.holding > 0 && v.exporting > 0
                && v' == v.(holding := v.holding - 1, exporting := v.exporting - 1))
  {
    if w in p.workers && !p.workers[w].afterCommit {
      var task := p.workers[w].task;
      if Saves(p, task) {
        StoreView(p, w, g);
        SaveView(p.(exported := p.exported + {task.group}, workers := p.workers[w := Worker(task, true)],
                    commits := Bump(p.commits, task.group)), task, Complete, g);
      } else {
        LeaveView(p, w, g);
      }
    }
  }

  lemma LateView(p: Protocol, h: nat, g: nat)
    ensures var v := ViewOf(p, g);
            ViewOf(p.(lateFailures := Bump(p.lateFailures, h)), g) ==
              if g == h then v.(lateFailures := v.lateFailures + 1) else v
  {
  }

  /** A worker that fails before its commit, or after it, and finds its log or not. */
  lemma FailView(p: Protocol, w: nat, fatal: bool, g: nat)
    ensures var v, v', log := ViewOf(p, g), ViewOf(FailStep(p, w, fatal), g), if fatal then Fatal else Failed;
            || v' == v
            || (v.holding > 0 && v.exporting > 0
                && v' == v.(log := Some(log), holding := v.holding - 1, exporting := v.exporting - 1))
            || (v.holding > 0
                && v' == v.(log := Some(log), holding := v.holding - 1, lateFailures := v.lateFailures + 1))
            || (v.holding > 0 && v.exporting > 0
                && v' == v.(holding := v.holding - 1, exporting := v.exporting - 1))
            || (v.holding > 0 && v' == v.(holding := v.holding - 1))
  {
    if w in p.workers {
      if Saves(p, p.workers[w].task) {
        FailSavedView(p, w, if fatal then Fatal else Failed, g);
      } else {
        LeaveView(p, w, g);
      }
    }
  }

  lemma FailSavedView(p: Protocol, w: nat, status: LogStatus, g: nat)
    requires w in p.workers
    ensures var v, task, late := ViewOf(p, g), p.workers[w].task, p.workers[w].afterCommit;
            var p' := SaveLog(p.(workers := p.workers - {w}), task, status)
                        .(lateFailures := if late then Bump(p.lateFailures, task.group) else p.lateFailures);
            if g != task.group then ViewOf(p', g) == v
            else v.holding > 0
                 && if late then ViewOf(p', g) == v.(log := Some(status), holding := v.holding - 1,
                                                     lateFailures := v.lateFailures + 1)
                    else v.exporting > 0 && ViewOf(p', g) == v.(log := Some(status), holding := v.holding - 1,
                                                                exporting := v.exporting - 1)
  {
    LeaveView(p, w, g);
    var task, p' := p.workers[w].task, p.(workers := p.workers - {w});
    SaveView(p', task, status, g);
    if p.workers[w].afterCommit {
      LateView(SaveLog(p', task, status), task.group, g);
    }
  }

  lemma ReturnView(p: Protocol, e: Event, g: nat)
    requires e.Return?
    ensures var v, v' := ViewOf(p, g), ViewOf(Step(p, e), g);
            v' == v || (v.holding > 0 && v' == v.(holding := v.holding - 1))
  {
    if e.worker in p.workers {
      HoldingAfterLeaving(p.workers, e.worker, g);
      ExportingAfterLeaving(p.workers, e.worker, g);
    }
  }

  lemma SweptView(p: Protocol, hit: set<nat>, g: nat)
    requires g in hit ==> g in p.logs
    ensures var v := ViewOf(p, g);
            ViewOf(Swept(p, hit), g) == if g in hit then v.(log := Some(Failed), sweeps := v.sweeps + 1) else v
  {
  }

  lemma SweepView(p: Protocol, e: Event, g: nat)
    requires e.Sweep?
    ensures var v, v' := ViewOf(p, g), ViewOf(Step(p, e), g);
            v' == v || v' == v.(log := Some(Failed), sweeps := v.sweeps + 1)
  {
    assert g in Hits(p, e.groups) <==> g in e.groups && Stuck(p, g);
    SweptView(p, Hits(p, e.groups), g);
  }

  /** How one step can change what the protocol holds of a group. */
  predicate Follows(v: View, v': View) {
    || v' == v
    || (OneIfTaken(v.log) == 0 && (v' == v.(log := Some(Enqueued)) || v' == v.(log := None)))
    || (OneIfTaken(v.log) == 0
        && v' == v.(log := Some(InProgress), holding := v.holding + 1, exporting := v.exporting + 1))
    || (v.exporting > 0
        && v' == v.(log := Some(Complete), exported := true, exporting := v.exporting - 1, commits := v.commits + 1))
    || (v.holding > 0 && v'.log != Some(Complete)
        && v' == v.(log := v'.log, holding := v.holding - 1, lateFailures := v.lateFailures + 1))
    || (v.holding > 0 && v.exporting > 0 && v'.log != Some(Complete)
        && v' == v.(log := v'.log, holding := v.holding - 1, exporting := v.exporting - 1))
    || (v.holding > 0 && v.exporting > 0 && v' == v.(holding := v.holding - 1, exporting := v.exporting - 1))
    || (v.holding > 0 && v' == v.(holding := v.holding - 1))
    || v' == v.(log := Some(Failed), sweeps := v.sweeps + 1)
  }

  lemma FollowingKeepsBounds(v: View, v': View)
    requires Bounded(v) && Follows(v, v')
    ensures Bounded(v')
  {
  }

  lemma StepFollows(p: Protocol, e: Event, g: nat)
    ensures Follows(ViewOf(p, g), ViewOf(Step(p, e), g))
  {
    match e
    case Claim(w, task, again) => ClaimView(p, w, task, again, g);
    case Commit(w) => CommitView(p, w, g);
    case Fail(w, fatal) => FailView(p, w, fatal, g);
    case Return(_) => ReturnView(p, e, g);
    case Sweep(_) => SweepView(p, e, g);
    case _ => SchedulingView(p, e, g);
  }

  lemma StepKeepsInv(p: Protocol, e: Event)
    requires Inv(p)
    ensures Inv(Step(p, e))
  {
    forall g: nat ensures Bounded(ViewOf(Step(p, e), g)) {
      StepFollows(p, e, g);
      FollowingKeepsBounds(ViewOf(p, g), ViewOf(Step(p, e), g));
    }
  }

  lemma StartIsBounded()
    ensures Inv(START)
  {
    forall g: nat ensures Bounded(ViewOf(START, g)) {
      assert Holding(START.workers, g) == {} && Exporting(START.workers, g) == {};
    }
  }

  /** The bounds hold in every state any interleaving reaches. */
  lemma {:induction false} RunKeepsInv(events: seq<Event>)
    ensures Inv(Run(START, events))
  {
    if events == [] {
      StartIsBounded();
    } else {
      RunKeepsInv(events[..|events| - 1]);
      StepKeepsInv(Run(START, events[..|events| - 1]), events[|events| - 1]);
    }
  }

  // ---------------------------------------------------------------- what follows

  /** Workers between claim and return on one log: at most its sweeps, and one more only if it is taken. */
  lemma WorkersPerLog(events: seq<Event>, g: nat)
    ensures var p := Run(START, events);
            |Holding(p.workers, g)| <= Count(p.sweeps, g) + OneIfTaken(ViewOf(p, g).log)
  {
    RunKeepsInv(events);
    assert Bounded(ViewOf(Run(START, events), g));
  }

  /** Without sweeps claims are mutually exclusive. */
  lemma ClaimsAreExclusive(events: seq<Event>, g: nat, v: nat, w: nat)
    requires var p := Run(START, events);
             Count(p.sweeps, g) == 0 && v in Holding(p.workers, g) && w in Holding(p.workers, g)
    ensures v == w
  {
    RunKeepsInv(events);
    var p := Run(START, events);
    assert Bounded(ViewOf(p, g));
    if v != w {
      TwoOrMore(Holding(p.workers, g), v, w);
    }
  }

  lemma TwoOrMore(s: set<nat>, v: nat, w: nat)
    requires v in s && w in s && v != w
    ensures |s| >= 2
  {
    assert {v, w} <= s;
    assert s == (s - {v, w}) + {v, w};
    assert |{v, w}| == 2;
  }

  /** A completed log's group is exported. */
  lemma CompleteIsExported(events: seq<Event>, g: nat)
    requires var p := Run(START, events); g in p.logs && p.logs[g] == Complete
    ensures g in Run(START, events).exported
  {
    RunKeepsInv(events);
    assert Bounded(ViewOf(Run(START, events), g));
  }

  /** A group is committed at most once more often than its log was swept or failed after a commit. */
  lemma CommitsPerLog(events: seq<Event>, g: nat)
    ensures var p := Run(START, events);
            Count(p.commits, g) <= Count(p.sweeps, g) + Count(p.lateFailures, g) + 1
  {
    RunKeepsInv(events);
    assert Bounded(ViewOf(Run(START, events), g));
  }

  /**
   Neither swept nor failed late, an exported group was committed once, its log stays complete, and a task for it
   that is still in the queue comes to nothing: whoever takes it leaves logs, workers and exports as they were.
   */
  lemma ExportedIsDone(events: seq<Event>, g: nat)
    requires var p := Run(START, events);
             g in p.exported && Count(p.sweeps, g) == 0 && Count(p.lateFailures, g) == 0
    ensures var p := Run(START, events);
            && Count(p.commits, g) == 1 && g in p.logs && p.logs[g] == Complete && !ResetsLog(p, g)
            && forall w, row, again ::
                 Step(p, Claim(w, Task(g, row), again)) == p.(queue := Step(p, Claim(w, Task(g, row), again)).queue)
  {
    RunKeepsInv(events);
    assert Bounded(ViewOf(Run(START, events), g));
  }

  /** A scheduler whose query and write are not separated queues no exported group and leaves its log alone. */
  lemma FreshQueryNeverEnqueuesExported(p: Protocol, n: nat, groups: set<nat>, g: nat)
    requires g in p.exported
    ensures var p' := Step(Step(p, Query(n, groups)), Enqueue(n, g));
            p'.logs == p.logs && p'.queue == p.queue
  {
  }

  /** An exported group is without a complete log only after a sweep or a failure after the commit. */
  lemma ExportedLacksLog(events: seq<Event>, g: nat)
    requires var p := Run(START, events); g in p.exported && !(g in p.logs && p.logs[g] == Complete)
    ensures var p := Run(START, events); Count(p.sweeps, g) + Count(p.lateFailures, g) > 0
  {
    RunKeepsInv(events);
    assert Bounded(ViewOf(Run(START, events), g));
  }

  // ---------------------------------------------------------------- when an exported group is queued and claimed

  /** Event i is scheduler n's latest query. */
  predicate LatestQuery(events: seq<Event>, i: nat, n: nat) {
    && i < |events| && events[i].Query? && events[i].scheduler == n
    && forall j :: i < j < |events| ==> !(events[j].Query? && events[j].scheduler == n)
  }

  /** Event i is scheduler n's latest query, and when it was asked g was neither exported nor taken. */
  predicate AnsweredWith(events: seq<Event>, i: nat, n: nat, g: nat) {
    LatestQuery(events, i, n) && g in events[i].groups && Schedulable(Run(START, events[..i]), g)
  }

  ghost predicate Answered(events: seq<Event>, n: nat, g: nat) {
    exists i: nat :: AnsweredWith(events, i, n, g)
  }

  lemma LatestSurvives(events: seq<Event>, e: Event, i: nat, n: nat)
    requires !(e.Query? && e.scheduler == n)
    ensures LatestQuery(events + [e], i, n) <==> LatestQuery(events, i, n)
  {
    var more := events + [e];
    if LatestQuery(events, i, n) {
      assert forall j :: i < j < |more| ==> more[j] == if j < |events| then events[j] else e;
    }
    if LatestQuery(more, i, n) {
      assert more[|events|] == e;
      assert forall j :: i < j < |events| ==> more[j] == events[j];
    }
  }

  lemma AnswerSurvives(events: seq<Event>, e: Event, n: nat, g: nat)
    requires !(e.Query? && e.scheduler == n)
    ensures Answered(events + [e], n, g) <==> Answered(events, n, g)
  {
    forall i: nat ensures AnsweredWith(events + [e], i, n, g) <==> AnsweredWith(events, i, n, g) {
      LatestSurvives(events, e, i, n);
      if i < |events| {
        assert (events + [e])[..i] == events[..i];
      }
    }
  }

  lemma NewestAnswer(events: seq<Event>, e: Event, n: nat, g: nat)
    requires e.Query? && e.scheduler == n
    ensures Answered(events + [e], n, g) <==> g in e.groups && Schedulable(Run(START, events), g)
  {
    var more := events + [e];
    assert more[|events|] == e && more[..|events|] == events;
    assert LatestQuery(more, |events|, n);
    assert AnsweredWith(more, |events|, n, g) <==> g in e.groups && Schedulable(Run(START, events), g);
    forall i: nat | AnsweredWith(more, i, n, g) ensures i == |events| {
    }
  }

  /** What a scheduler still lists is what its latest query found. */
  lemma {:induction false} ListedExactly(events: seq<Event>, n: nat, g: nat)
    ensures StillLists(Run(START, events), n, g) <==> Answered(events, n, g)
  {
    if events == [] {
    } else {
      var front, e := events[..|events| - 1], events[|events| - 1];
      assert events == front + [e];
      if e.Query? && e.scheduler == n {
        NewestAnswer(front, e, n, g);
      } else {
        ListedExactly(front, n, g);
        AnswerSurvives(front, e, n, g);
        OthersKeepTheList(Run(START, front), e, n, g);
      }
    }
  }

  lemma OthersKeepTheList(p: Protocol, e: Event, n: nat, g: nat)
    requires !(e.Query? && e.scheduler == n)
    ensures StillLists(Step(p, e), n, g) <==> StillLists(p, n, g)
  {
    if !e.Query? {
      OthersKeepSeen(p, e);
    }
  }

  lemma OthersKeepSeen(p: Protocol, e: Event)
    requires !e.Query?
    ensures Step(p, e).seen == p.seen
  {
  }

  lemma NewTask(p: Protocol, g: nat, task: Task)
    ensures EnqueueStep(p, g).queue[task] > p.queue[task] <==> task == Task(g, RowFor(p, g))
    ensures Current(EnqueueStep(p, g), Task(g, RowFor(p, g)))
  {
  }

  lemma OnlyEnqueueAdds(p: Protocol, e: Event, task: Task)
    requires !e.Enqueue?
    ensures Step(p, e).queue[task] <= p.queue[task]
  {
    if !e.Claim? {
      OthersKeepTheQueue(p, e);
    }
  }

  lemma OthersKeepTheQueue(p: Protocol, e: Event)
    requires !e.Enqueue? && !e.Claim?
    ensures Step(p, e).queue == p.queue
  {
  }

  /**
   A group gets a task exactly when a scheduler works from an answer that found it neither exported nor taken. So
   an exported group gets one exactly when that answer is older than the export. The task names the log that the
   group has then.
   */
  lemma QueuedExactly(events: seq<Event>, e: Event, task: Task)
    ensures var p, g := Run(START, events), task.group;
            Step(p, e).queue[task] > p.queue[task] <==>
              e.Enqueue? && e.group == g && task.row == RowFor(p, g) && Answered(events, e.scheduler, g)
    ensures var p := Run(START, events); Step(p, e).queue[task] > p.queue[task] ==> Current(Step(p, e), task)
    ensures forall i: nat, n ::
              AnsweredWith(events, i, n, task.group) ==> task.group !in Run(START, events[..i]).exported
  {
    var p := Run(START, events);
    if e.Enqueue? {
      ListedExactly(events, e.scheduler, e.group);
      if StillLists(p, e.scheduler, e.group) {
        NewTask(p, e.group, task);
      }
    } else {
      OnlyEnqueueAdds(p, e, task);
    }
  }

  /**
   A worker that takes a task of an exported group claims the log exactly when that is still the log the task names
   and was left queued, failed or fatal, and that takes a sweep or a failure after the commit.
   */
  lemma ExportedIsClaimedExactly(events: seq<Event>, w: nat, task: Task, again: bool)
    requires var p := Run(START, events); task.group in p.exported && task in p.queue && w !in p.workers
    ensures var p, g := Run(START, events), task.group;
            && (w in Step(p, Claim(w, task, again)).workers <==>
                  Current(p, task) && (p.logs[g] == Enqueued || p.logs[g] == Failed || p.logs[g] == Fatal))
            && (w in Step(p, Claim(w, task, again)).workers ==> Count(p.sweeps, g) + Count(p.lateFailures, g) > 0)
  {
    RunKeepsInv(events);
    assert Bounded(ViewOf(Run(START, events), task.group));
  }

  /** A scheduler resets the log of an exported group exactly when it was left failed or fatal, or was deleted. */
  lemma ExportedIsResetExactly(events: seq<Event>, n: nat, g: nat)
    requires var p := Run(START, events); g in p.exported && StillLists(p, n, g)
    ensures var p := Run(START, events);
            && (Step(p, Enqueue(n, g)).logs != p.logs <==> g !in p.logs || p.logs[g] == Failed || p.logs[g] == Fatal)
            && (Step(p, Enqueue(n, g)).logs != p.logs ==> Count(p.sweeps, g) + Count(p.lateFailures, g) > 0)
  {
    RunKeepsInv(events);
    var p := Run(START, events);
    assert Bounded(ViewOf(p, g));
    if ResetsLog(p, g) {
      assert Step(p, Enqueue(n, g)).logs[g] == Enqueued;
    }
  }

  // ---------------------------------------------------------------- the bounds are reached

  lemma RunSnoc(p: Protocol, events: seq<Event>, e: Event)
    ensures Run(p, events + [e]) == Step(Run(p, events), e)
  {
    assert (events + [e])[..|events|] == events;
  }

  lemma QueryForOne(p: Protocol, n: nat, g: nat)
    requires Schedulable(p, g)
    ensures Step(p, Query(n, {g})) == p.(seen := p.seen[n := {g}])
  {
    assert Answer(p, {g}) == {g};
  }

  /** Group 7 after two schedulers have asked for it, the first one has queued it and worker 0 has exported it. */
  const EXPORTED_ONCE := Protocol(
    map[7 := Complete], map[7 := 1], 2, {7}, map[0 := {7}, 1 := {7}], multiset{}, map[0 := Worker(TASK, true)],
    map[], map[], map[7 := 1])

  const TASK := Task(7, 1)

  lemma TwoQueries()
    ensures Run(START, [Query(0, {7}), Query(1, {7})]) == START.(seen := map[0 := {7}, 1 := {7}])
  {
    var p := START.(seen := map[0 := {7}]);
    assert Run(START, []) == START;
    RunSnoc(START, [], Query(0, {7}));
    RunSnoc(START, [Query(0, {7})], Query(1, {7}));
    QueryForOne(START, 0, 7);
    QueryForOne(p, 1, 7);
    assert [] + [Query(0, {7})] == [Query(0, {7})];
    assert [Query(0, {7})] + [Query(1, {7})] == [Query(0, {7}), Query(1, {7})];
  }

  const EXPORT_RUN: seq<Event> := [Query(0, {7}), Query(1, {7})] + [Enqueue(0, 7), Claim(0, TASK, false)] + [Commit(0)]

  lemma ExportAfterTwoQueries()
    ensures Run(START, EXPORT_RUN) == EXPORTED_ONCE
  {
    var queries := [Query(0, {7}), Query(1, {7})];
    TwoQueries();
    FirstExport();
    TwoMore(START, queries, Enqueue(0, 7), Claim(0, TASK, false));
    RunSnoc(START, queries + [Enqueue(0, 7), Claim(0, TASK, false)], Commit(0));
  }

  lemma FirstExport()
    ensures var p := START.(seen := map[0 := {7}, 1 := {7}]);
            Step(Step(Step(p, Enqueue(0, 7)), Claim(0, TASK, false)), Commit(0)) == EXPORTED_ONCE
  {
    var p := Step(START.(seen := map[0 := {7}, 1 := {7}]), Enqueue(0, 7));
    assert p == START.(logs := map[7 := Enqueued], rows := map[7 := 1], next := 2,
                       seen := map[0 := {7}, 1 := {7}], queue := multiset{TASK});
    var q := Step(p, Claim(0, TASK, false));
    assert q == p.(logs := map[7 := InProgress], queue := multiset{}, workers := map[0 := Worker(TASK, false)]);
  }

  /** A stale query queues an exported group although nothing was swept and nothing failed. */
  lemma StaleQueryQueuesExported()
    ensures var p := Run(START, EXPORT_RUN + [Enqueue(1, 7)]);
            && 7 in p.exported && p.queue[TASK] == 1 && p.logs == map[7 := Complete]
            && Count(p.sweeps, 7) == 0 && Count(p.lateFailures, 7) == 0
  {
    ExportAfterTwoQueries();
    RunSnoc(START, EXPORT_RUN, Enqueue(1, 7));
  }

  /**
   One failure after the commit and one stale query export the group twice: scheduler 1 queues the failed log
   again and worker 1 commits it although the group is exported.
   */
  lemma LateFailureExportsTwice()
    ensures var p := Run(START, EXPORT_RUN + [Fail(0, true), Enqueue(1, 7)] + [Claim(1, TASK, false), Commit(1)]);
            Count(p.commits, 7) == 2 && Count(p.sweeps, 7) == 0 && Count(p.lateFailures, 7) == 1
  {
    ExportAfterTwoQueries();
    SecondExport();
    TwoMore(START, EXPORT_RUN, Fail(0, true), Enqueue(1, 7));
    TwoMore(START, EXPORT_RUN + [Fail(0, true), Enqueue(1, 7)], Claim(1, TASK, false), Commit(1));
  }

  /** One failure after the commit leaves an exported group without a complete log. */
  lemma LateFailureLosesCompleteLog()
    ensures var p := Run(START, EXPORT_RUN + [Fail(0, true)]); 7 in p.exported && p.logs == map[7 := Fatal]
  {
    ExportAfterTwoQueries();
    RunSnoc(START, EXPORT_RUN, Fail(0, true));
  }

  lemma TwoMore(p: Protocol, events: seq<Event>, a: Event, b: Event)
    ensures Run(p, events + [a, b]) == Step(Step(Run(p, events), a), b)
  {
    var one := events + [a];
    RunSnoc(p, events, a);
    RunSnoc(p, one, b);
    assert one + [b] == events + [a, b];
  }

  lemma SecondExport()
    ensures var q := Step(Step(EXPORTED_ONCE, Fail(0, true)), Enqueue(1, 7));
            var p := Step(Step(q, Claim(1, TASK, false)), Commit(1));
            p.commits == map[7 := 2] && p.sweeps == map[] && p.lateFailures == map[7 := 1]
  {
    var p := Step(EXPORTED_ONCE, Fail(0, true));
    assert p == EXPORTED_ONCE.(logs := map[7 := Fatal], workers := map[], lateFailures := map[7 := 1]);
    var q := Step(p, Enqueue(1, 7));
    assert q == p.(logs := map[7 := Enqueued], queue := multiset{TASK});
    var r := Step(q, Claim(1, TASK, false));
    assert r == q.(logs := map[7 := InProgress], queue := multiset{}, workers := map[1 := Worker(TASK, false)]);
  }
}
