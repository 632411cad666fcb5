/**
 The posts of the export protocol: a worker posts to NetSuite before its transaction commits, so that a failure in
 between leaves a document there that the tables know nothing of.
 */
module ExportPosts {
  import opened Common
  import opened TaskLogs
  import opened ExportProtocol

  /** A step of the protocol, or NetSuite taking the document of a worker, whether or not its answer arrives. */
  datatype Action = Take(event: Event) | Post(worker: nat)

  /**
   posted holds the workers that have posted and neither committed nor failed. posts and lost are history: the posts
   of each group, and those whose transaction never committed.
   */
  datatype Detailed = Detailed(protocol: Protocol, posted: set<nat>, posts: map<nat, nat>, lost: map<nat, nat>)

  const BEGIN := Detailed(START, {}, map[], map[])

  predicate MayPost(d: Detailed, w: nat) {
    w in d.protocol.workers && !d.protocol.workers[w].afterCommit && w !in d.posted
  }

  /** The worker whose transaction the event ends. */
  function Ending(e: Event): Option<nat> {
    match e
    case Commit(w) => Some(w)
    case Fail(w, _) => Some(w)
    case _ => None
  }

  /** Nothing commits that was not posted. */
  predicate Happens(d: Detailed, a: Action) {
    a.Take? && (a.event.Commit? ==> a.event.worker in d.posted)
  }

  function Act(d: Detailed, a: Action): Detailed {
    match a
    case Post(w) =>
      if MayPost(d, w)
      then d.(posted := d.posted + {w}, posts := Bump(d.posts, d.protocol.workers[w].task.group)) else d
    case Take(e) =>
      if !Happens(d, a) then d
      else
        var q, w := Step(d.protocol, e), Ending(e);
        if w.Some? && w.value in d.posted && w.value in d.protocol.workers then
          var g, committed := d.protocol.workers[w.value].task.group, w.value in q.workers;
          d.(protocol := q, posted := d.posted - {w.value}, lost := if committed then d.lost else Bump(d.lost, g))
        else d.(protocol := q)
  }

  function ActAll(actions: seq<Action>): Detailed {
    if actions == [] then BEGIN else Act(ActAll(actions[..|actions| - 1]), actions[|actions| - 1])
  }

  // ---------------------------------------------------------------- the protocol underneath

  /** The steps of the protocol that the actions take. */
  function EventsOf(actions: seq<Action>): seq<Event> {
    if actions == [] then []
    else
      var front, last := actions[..|actions| - 1], actions[|actions| - 1];
      EventsOf(front) + if Happens(ActAll(front), last) then [last.event] else []
  }

  /** With its posts left out, a run of actions is a run of the protocol. */
  lemma {:induction false} ActionsRefineTheProtocol(actions: seq<Action>)
    ensures ActAll(actions).protocol == Run(START, EventsOf(actions))
  {
    if actions == [] {
    } else {
      var front, last := actions[..|actions| - 1], actions[|actions| - 1];
      ActionsRefineTheProtocol(front);
      if Happens(ActAll(front), last) {
        RunSnoc(START, EventsOf(front), last.event);
      } else {
        assert EventsOf(actions) == EventsOf(front);
      }
    }
  }

  // ---------------------------------------------------------------- every post is accounted for

  /** The workers on the group that have posted and not committed. */
  function PostedOf(d: Detailed, g: nat): set<nat> {
    set w | w in d.posted && w in d.protocol.workers && d.protocol.workers[w].task.group == g
  }

  /** Whoever has posted is still exporting. */
  ghost predicate PostedExport(d: Detailed) {
    forall w :: w in d.posted ==> w in d.protocol.workers && !d.protocol.workers[w].afterCommit
  }

  /** A post was committed, or may still be, or is lost. */
  predicate Balanced(d: Detailed, g: nat) {
    Count(d.posts, g) == Count(d.protocol.commits, g) + |PostedOf(d, g)| + Count(d.lost, g)
  }

  ghost predicate AllBalanced(d: Detailed) {
    PostedExport(d) && forall g: nat :: Balanced(d, g)
  }

  lemma PostKeepsBalance(d: Detailed, w: nat, g: nat)
    requires PostedExport(d) && Balanced(d, g)
    ensures PostedExport(Act(d, Post(w))) && Balanced(Act(d, Post(w)), g)
  {
    var d' := Act(d, Post(w));
    if MayPost(d, w) && g == d.protocol.workers[w].task.group {
      assert PostedOf(d', g) == PostedOf(d, g) + {w};
    } else {
      assert PostedOf(d', g) == PostedOf(d, g);
    }
  }

  /** What a step of the protocol leaves of a worker whose transaction it does not end. */
  lemma OtherWorkerStays(p: Protocol, e: Event, w: nat)
    requires w in p.workers && !p.workers[w].afterCommit && Ending(e) != Some(w)
    ensures w in Step(p, e).workers && Step(p, e).workers[w] == p.workers[w]
  {
  }

  lemma OtherStepsKeepCommits(p: Protocol, e: Event)
    requires !e.Commit?
    ensures Step(p, e).commits == p.commits
  {
  }

  /** A commit is counted exactly when the worker stays, to be done after it. */
  lemma CommitCounts(p: Protocol, w: nat, g: nat)
    requires w in p.workers && !p.workers[w].afterCommit
    ensures Count(CommitStep(p, w).commits, g) ==
              Count(p.commits, g) + if g == p.workers[w].task.group && w in CommitStep(p, w).workers then 1 else 0
  {
  }

  lemma PostedStay(d: Detailed, e: Event)
    requires PostedExport(d) && Happens(d, Take(e))
    ensures var d' := Act(d, Take(e));
            && d'.posted == (if Ending(e).Some? then d.posted - {Ending(e).value} else d.posted)
            && forall w :: w in d'.posted ==>
                 w in d'.protocol.workers && d'.protocol.workers[w] == d.protocol.workers[w]
  {
    var d' := Act(d, Take(e));
    assert d'.protocol == Step(d.protocol, e);
    forall w | w in d'.posted
      ensures w in d'.protocol.workers && d'.protocol.workers[w] == d.protocol.workers[w]
    {
      OtherWorkerStays(d.protocol, e, w);
    }
  }

  /** What a step does to the workers that have posted. */
  lemma PostedAfter(d: Detailed, e: Event, g: nat)
    requires PostedExport(d) && Happens(d, Take(e))
    ensures PostedOf(Act(d, Take(e)), g) == PostedOf(d, g) - if Ending(e).Some? then {Ending(e).value} else {}
  {
    PostedStay(d, e);
  }

  lemma OneLess(s: set<nat>, w: nat)
    ensures |s| == |s - {w}| + if w in s then 1 else 0
  {
    if w in s {
      assert s == (s - {w}) + {w};
    } else {
      assert s == s - {w};
    }
  }

  lemma CommitKeepsBalance(d: Detailed, w: nat, g: nat)
    requires PostedExport(d) && Balanced(d, g) && w in d.posted
    ensures Balanced(Act(d, Take(Commit(w))), g)
  {
    PostedAfter(d, Commit(w), g);
    OneLess(PostedOf(d, g), w);
    CommitCounts(d.protocol, w, g);
  }

  lemma FailureKeepsBalance(d: Detailed, w: nat, fatal: bool, g: nat)
    requires PostedExport(d) && Balanced(d, g)
    ensures Balanced(Act(d, Take(Fail(w, fatal))), g)
  {
    var e := Fail(w, fatal);
    PostedAfter(d, e, g);
    OneLess(PostedOf(d, g), w);
    assert Step(d.protocol, e) == FailStep(d.protocol, w, fatal);
  }

  lemma OtherStepKeepsBalance(d: Detailed, e: Event, g: nat)
    requires PostedExport(d) && Balanced(d, g) && Ending(e) == None
    ensures Balanced(Act(d, Take(e)), g)
  {
    PostedAfter(d, e, g);
    OtherStepsKeepCommits(d.protocol, e);
  }

  lemma StepKeepsBalance(d: Detailed, e: Event, g: nat)
    requires PostedExport(d) && Balanced(d, g) && Happens(d, Take(e))
    ensures Balanced(Act(d, Take(e)), g)
  {
    match e
    case Commit(w) => CommitKeepsBalance(d, w, g);
    case Fail(w, fatal) => FailureKeepsBalance(d, w, fatal, g);
    case _ => OtherStepKeepsBalance(d, e, g);
  }

  lemma StepKeepsPosted(d: Detailed, e: Event)
    requires PostedExport(d) && Happens(d, Take(e))
    ensures PostedExport(Act(d, Take(e)))
  {
    PostedStay(d, e);
  }

  lemma ActKeepsBalance(d: Detailed, a: Action)
    requires AllBalanced(d)
    ensures AllBalanced(Act(d, a))
  {
    if a.Post? {
      forall g: nat ensures Balanced(Act(d, a), g) && PostedExport(Act(d, a)) {
        PostKeepsBalance(d, a.worker, g);
      }
    } else if Happens(d, a) {
      StepKeepsPosted(d, a.event);
      forall g: nat ensures Balanced(Act(d, a), g) {
        StepKeepsBalance(d, a.event, g);
      }
    }
  }

  lemma {:induction false} ActionsKeepBalance(actions: seq<Action>)
    ensures AllBalanced(ActAll(actions))
  {
    if actions == [] {
      assert forall g: nat :: PostedOf(BEGIN, g) == {};
    } else {
      ActionsKeepBalance(actions[..|actions| - 1]);
      ActKeepsBalance(ActAll(actions[..|actions| - 1]), actions[|actions| - 1]);
    }
  }

  // ---------------------------------------------------------------- how often a group is posted

  lemma SubsetIsSmaller(a: set<nat>, b: set<nat>)
    requires a <= b
    ensures |a| <= |b|
  {
    assert b == a + (b - a);
  }

  /**
   A group is posted to NetSuite at most once more often than its logs were swept, failed after a commit, or failed
   between post and commit.
   */
  lemma PostsPerLog(actions: seq<Action>, g: nat)
    ensures var d := ActAll(actions);
            Count(d.posts, g) <=
              Count(d.protocol.sweeps, g) + Count(d.protocol.lateFailures, g) + Count(d.lost, g) + 1
  {
    var d := ActAll(actions);
    ActionsKeepBalance(actions);
    ActionsRefineTheProtocol(actions);
    RunKeepsInv(EventsOf(actions));
    assert Balanced(d, g) && Bounded(ViewOf(d.protocol, g));
    SubsetIsSmaller(PostedOf(d, g), Exporting(d.protocol.workers, g));
  }

  /**
   A group that is exported, neither swept nor failed after the commit, was posted exactly once and again for every
   failure between post and commit.
   */
  lemma PostedOnceAndForEachLoss(actions: seq<Action>, g: nat)
    requires var p := ActAll(actions).protocol;
             g in p.exported && Count(p.sweeps, g) == 0 && Count(p.lateFailures, g) == 0
    ensures Count(ActAll(actions).posts, g) == 1 + Count(ActAll(actions).lost, g)
  {
    var d := ActAll(actions);
    ActionsKeepBalance(actions);
    ActionsRefineTheProtocol(actions);
    RunKeepsInv(EventsOf(actions));
    assert Balanced(d, g) && Bounded(ViewOf(d.protocol, g));
    ExportedIsDone(EventsOf(actions), g);
    SubsetIsSmaller(PostedOf(d, g), Exporting(d.protocol.workers, g));
  }

  lemma ActSnoc(actions: seq<Action>, a: Action)
    ensures ActAll(actions + [a]) == Act(ActAll(actions), a)
  {
    assert (actions + [a])[..|actions|] == actions;
  }

  lemma ActTwo(actions: seq<Action>, a: Action, b: Action)
    ensures ActAll(actions + [a, b]) == Act(Act(ActAll(actions), a), b)
  {
    var one := actions + [a];
    ActSnoc(actions, a);
    ActSnoc(one, b);
    assert one + [b] == actions + [a, b];
  }

  const ASK: seq<Action> := [] + [Take(Query(0, {7})), Take(Enqueue(0, 7))]
  const LOSE: seq<Action> := ASK + [Take(Claim(0, TASK, false)), Post(0)] + [Take(Fail(0, false)), Take(Query(0, {7}))]
  const AGAIN: seq<Action> := LOSE + [Take(Enqueue(0, 7)), Take(Claim(1, TASK, false))] + [Post(1), Take(Commit(1))]

  /** Group 7 with its first log, queued and listed by scheduler 0. */
  const ASKED := Protocol(
    map[7 := Enqueued], map[7 := 1], 2, {}, map[0 := {7}], multiset{TASK}, map[], map[], map[], map[])

  lemma Asked()
    ensures ActAll(ASK) == Detailed(ASKED, {}, map[], map[])
  {
    ActTwo([], Take(Query(0, {7})), Take(Enqueue(0, 7)));
    QueryForOne(START, 0, 7);
  }

  /** Group 7 claimed by a worker, and with a failed log. */
  function Claimed(w: nat): Protocol {
    ASKED.(logs := map[7 := InProgress], queue := multiset{}, workers := map[w := Worker(TASK, false)])
  }

  const FAILED := ASKED.(logs := map[7 := Failed], queue := multiset{})

  lemma ClaimAndPost()
    ensures Act(Act(Detailed(ASKED, {}, map[], map[]), Take(Claim(0, TASK, false))), Post(0)) ==
            Detailed(Claimed(0), {0}, map[7 := 1], map[])
  {
    assert Step(ASKED, Claim(0, TASK, false)) == Claimed(0);
  }

  lemma FailAndAsk()
    ensures Act(Act(Detailed(Claimed(0), {0}, map[7 := 1], map[]), Take(Fail(0, false))), Take(Query(0, {7}))) ==
            Detailed(FAILED, {}, map[7 := 1], map[7 := 1])
  {
    assert Step(Claimed(0), Fail(0, false)) == FAILED;
    QueryForOne(FAILED, 0, 7);
    assert Step(FAILED, Query(0, {7})) == FAILED;
  }

  lemma Lost()
    ensures ActAll(LOSE) == Detailed(FAILED, {}, map[7 := 1], map[7 := 1])
  {
    Asked();
    ClaimAndPost();
    FailAndAsk();
    ActTwo(ASK, Take(Claim(0, TASK, false)), Post(0));
    ActTwo(ASK + [Take(Claim(0, TASK, false)), Post(0)], Take(Fail(0, false)), Take(Query(0, {7})));
  }

  lemma ClaimAgain()
    ensures var d := Detailed(FAILED, {}, map[7 := 1], map[7 := 1]);
            Act(Act(d, Take(Enqueue(0, 7))), Take(Claim(1, TASK, false))) == d.(protocol := Claimed(1))
  {
    assert Step(FAILED, Enqueue(0, 7)) == ASKED;
    assert Step(ASKED, Claim(1, TASK, false)) == Claimed(1);
  }

  lemma PostAndCommit()
    ensures var d := Act(Act(Detailed(Claimed(1), {}, map[7 := 1], map[7 := 1]), Post(1)), Take(Commit(1)));
            && d.posts == map[7 := 2] && d.lost == map[7 := 1] && d.protocol.commits == map[7 := 1]
            && d.protocol.sweeps == map[] && d.protocol.lateFailures == map[]
  {
    assert Step(Claimed(1), Commit(1)).commits == map[7 := 1];
  }

  /** One failure between post and commit posts the group twice, with nothing swept and no failure after a commit. */
  lemma LostPostPostsTwice()
    ensures var d := ActAll(AGAIN);
            && Count(d.posts, 7) == 2 && Count(d.lost, 7) == 1 && Count(d.protocol.commits, 7) == 1
            && Count(d.protocol.sweeps, 7) == 0 && Count(d.protocol.lateFailures, 7) == 0
  {
    Lost();
    ClaimAgain();
    PostAndCommit();
    ActTwo(LOSE, Take(Enqueue(0, 7)), Take(Claim(1, TASK, false)));
    ActTwo(LOSE + [Take(Enqueue(0, 7)), Take(Claim(1, TASK, false))], Post(1), Take(Commit(1)));
  }
}
