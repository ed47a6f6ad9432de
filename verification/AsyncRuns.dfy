/** What holds over every run of the asynchronous executor. */
module AsyncRuns {
  import opened Wrappers
  import opened Masking
  import opened Store
  import opened Async

  lemma InitOk(capacity: nat, workers: nat)
    ensures Inv(Init(capacity, workers))
  {}

  // ---------- ownership ----------

  predicate InFlight(s: State, id: nat) {
    id < |s.submissions|
    && (s.submissions[id].Creating? || s.submissions[id].Enqueueing? || s.submissions[id].Marking?)
  }

  predicate HeldBy(s: State, w: nat, id: nat) {
    w < |s.workers| && s.workers[w].Job() == Some(id)
  }

  /** In every interleaving, with any store faults: the queue keeps its capacity and is first in, first out;
      a task belongs to one submission, one queue slot or one worker; `Execute` is called at most once for a
      task, only for one that left the queue, and never for one whose submission was refused. */
  lemma Ownership(capacity: nat, workers: nat, es: seq<Event>)
    requires CanRun(Init(capacity, workers), es)
    ensures var s := Run(Init(capacity, workers), es);
      && s.capacity == capacity && |s.queue| <= capacity
      && s.accepted == s.taken + s.queue && Distinct(s.accepted) && Distinct(s.runs)
      && (forall id :: InFlight(s, id) ==> id !in s.queue && forall w :: !HeldBy(s, w, id))
      && (forall w, id :: HeldBy(s, w, id) ==> id !in s.queue)
      && (forall v, w, id :: HeldBy(s, v, id) && HeldBy(s, w, id) ==> v == w)
      && (forall id :: id in s.runs ==> id in s.taken && id < |s.submissions| && s.submissions[id] == Accepted)
  {
    InitOk(capacity, workers);
    RunKeepsInv(Init(capacity, workers), es);
    RunKeepsCapacity(Init(capacity, workers), es);
    var s := Run(Init(capacity, workers), es);
    forall w: nat, id: nat | HeldBy(s, w, id)
      ensures id !in s.queue && id < |s.submissions| && s.submissions[id] == Accepted
    {
      HeldJob(s, w);
    }
    forall id | id in s.queue || id in s.runs ensures id in s.accepted {}
  }

  lemma {:induction false} RunKeepsCapacity(s: State, es: seq<Event>)
    requires CanRun(s, es)
    ensures Run(s, es).capacity == s.capacity && |Run(s, es).workers| == |s.workers|
    decreases |es|
  {
    if es != [] {
      RunKeepsCapacity(Apply(s, es[0]), es[1..]);
    }
  }

  // ---------- the life of a row ----------

  predicate Advances(from: Status, to: Status) {
    || (from == Pending && (to == Running || to == Failed))
    || (from == Running && to.Terminal())
  }

  /** A step leaves a row alone, or moves it one status on, starting from the row as stored: no worker and
      no submission overwrites a change it has not seen. */
  lemma StepAdvances(s: State, e: Event, id: nat)
    requires Inv(s) && Enabled(s, e) && id in s.tasks
    ensures var s' := Apply(s, e);
      && id in s'.tasks
      && (s'.tasks[id] == s.tasks[id]
          || (Advances(s.tasks[id].status, s'.tasks[id].status)
              && s.tasks[id] == Before(s'.tasks[id], s.tasks[id].status)))
  {
    var s' := Apply(s, e);
    assert RowOk(s, id);
    if Target(s, e) != Some(id) {
      assert id in s'.tasks;
      UnwrittenRowOk(s, e, id);
    } else if Submits(e) {
      assert SubmissionOk(s, e.i);
    } else {
      HeldJob(s, e.w);
      assert WorkerOk(s, e.w);
    }
  }

  function Rank(status: Status): nat {
    match status
    case Pending => 0
    case Running => 1
    case _ => 2
  }

  /** Rows are never lost, never go back, and never change again once their task has ended. */
  lemma {:induction false} RowsAdvance(s: State, es: seq<Event>, id: nat)
    requires Inv(s) && CanRun(s, es) && id in s.tasks
    ensures var s' := Run(s, es);
      && id in s'.tasks
      && Rank(s.tasks[id].status) <= Rank(s'.tasks[id].status)
      && (s.tasks[id].status.Terminal() ==> s'.tasks[id] == s.tasks[id])
    decreases |es|
  {
    RunKeepsInv(s, es);
    if es != [] {
      StepAdvances(s, es[0], id);
      StepKeepsInv(s, es[0]);
      RowsAdvance(Apply(s, es[0]), es[1..], id);
    }
  }

  /** A stored success is backed by a stored audit row of the very call it reports, a success too; and only
      a task refused by a full queue ends without a finish time. */
  lemma EndedRows(capacity: nat, workers: nat, es: seq<Event>, id: nat)
    requires CanRun(Init(capacity, workers), es) && id in Run(Init(capacity, workers), es).tasks
    ensures var s := Run(Init(capacity, workers), es); var row := s.tasks[id];
      && (row.status == Success ==>
            row.result.Some? && exists k :: 0 <= k < |s.audits| && s.audits[k].callID == row.result.value.callID
                                            && s.audits[k].status == "success")
      && (row.status.Terminal() ==> (row.finishedAt == None <==> id !in s.accepted))
      && (row.status.Terminal() && id !in s.accepted ==>
            row.status == Failed && row.errorMessage == ERR_QUEUE_FULL)
  {
    InitOk(capacity, workers);
    RunKeepsInv(Init(capacity, workers), es);
    var s := Run(Init(capacity, workers), es);
    assert RowOk(s, id);
    if s.tasks[id].status == Success {
      var k :| 0 <= k < |s.audits| && AuditOf(s.audits[k], s.tasks[id].result.value);
      assert s.audits[k].callID == s.tasks[id].result.value.callID && s.audits[k].status == "success";
    }
  }

  // ---------- what a store fault costs, and whom ----------

  ghost predicate Held(s: State, id: nat) {
    exists w: nat :: HeldBy(s, w, id)
  }

  predicate Ended(s: State, id: nat) {
    id in s.tasks && s.tasks[id].status.Terminal()
  }

  /** Nobody will work on the task again, and it has not ended. */
  ghost predicate Stalled(s: State, id: nat) {
    id < |s.submissions| && !Ended(s, id) && !InFlight(s, id) && id !in s.queue && !Held(s, id)
  }

  /** The task left the queue and will not be executed. */
  ghost predicate Skipped(s: State, id: nat) {
    id in s.accepted && id !in s.queue && id !in s.runs && !Held(s, id)
  }

  /** One of the task's own two calls before it is executed fails. */
  predicate Skips(s: State, e: Event, id: nat)
    requires Enabled(s, e)
  {
    match e
    case Load(w, ok) => s.workers[w].id == id && !ok
    case MarkRunning(w, reply) => s.workers[w].row.taskID == id && !reply.ok
    case _ => false
  }

  /** The faults that cost the task its end: its own Create, Load or MarkRunning fails, or its own last
      write, MarkFull or Finish, takes no effect. */
  predicate Drops(s: State, e: Event, id: nat)
    requires Enabled(s, e)
  {
    match e
    case Create(i, reply) => i == id && !reply.ok
    case MarkFull(i, reply) => i == id && !reply.applied
    case Finish(w, reply) => s.workers[w].row.taskID == id && !reply.applied
    case _ => Skips(s, e, id)
  }

  /** Whoever is not concerned by a step stays where it is. */
  lemma HeldElsewhere(s: State, e: Event, id: nat)
    requires Inv(s) && Enabled(s, e)
    requires Moves(e) ==> s.workers[e.w].Job() != Some(id) && (e.Dequeue? ==> s.queue[0] != id)
    ensures Held(Apply(s, e), id) <==> Held(s, id)
    ensures id in Apply(s, e).queue <==> id in s.queue || (e.Enqueue? && e.i == id && |s.queue| < s.capacity)
  {
    var s' := Apply(s, e);
    if Held(s, id) {
      var w: nat :| HeldBy(s, w, id);
      assert HeldBy(s', w, id);
    }
    if Held(s', id) {
      var w: nat :| HeldBy(s', w, id);
      assert HeldBy(s, w, id);
    }
    if e.Dequeue? {
      assert s.queue == [s.queue[0]] + s'.queue;
    }
  }

  /** The job a worker moves on with is its own, and no other worker's. */
  lemma HeldByMover(s: State, e: Event)
    requires Inv(s) && Enabled(s, e) && Moves(e) && !e.Dequeue?
    ensures var id := s.workers[e.w].Job().value; var s' := Apply(s, e);
      && id in s.accepted && id !in s.queue && Held(s, id) && !Ended(s, id) && !InFlight(s, id)
      && (Held(s', id) <==> s'.workers[e.w] != Idle)
      && id !in s'.queue && (id in s.runs <==> s.workers[e.w].Auditing? || s.workers[e.w].Finishing?)
  {
    var id, s' := s.workers[e.w].Job().value, Apply(s, e);
    assert WorkerOk(s, e.w);
    HeldJob(s, e.w);
    assert HeldBy(s, e.w, id);
    if s'.workers[e.w] != Idle {
      assert HeldBy(s', e.w, id);
    }
    assert forall w: nat :: HeldBy(s', w, id) && w != e.w ==> HeldBy(s, w, id);
    assert SubmissionOk(s, id);
  }

  /** The step of the submission that works on the task. */
  lemma SubmitterStallsIff(s: State, e: Event, id: nat)
    requires Inv(s) && Enabled(s, e) && Submits(e) && e.i == id
    ensures Stalled(Apply(s, e), id) <==> Stalled(s, id) || Drops(s, e, id)
  {
    HeldElsewhere(s, e, id);
    assert SubmissionOk(s, id);
    if Held(s, id) {
      var w: nat :| HeldBy(s, w, id);
      HeldJob(s, w);
    }
    assert forall k :: 0 <= k < |s.queue| ==> s.accepted[|s.taken| + k] == s.queue[k];
  }

  lemma StrangerStallsIff(s: State, e: Event, id: nat)
    requires Inv(s) && Enabled(s, e) && !(Submits(e) && e.i == id)
    requires Moves(e) ==> s.workers[e.w].Job() != Some(id) && (e.Dequeue? ==> s.queue[0] != id)
    ensures Stalled(Apply(s, e), id) <==> Stalled(s, id) || Drops(s, e, id)
  {
    HeldElsewhere(s, e, id);
    if Submits(e) {
      assert SubmissionOk(s, e.i);
    }
    assert Target(s, e) != Some(id);
    if e.Submit? && id == |s.submissions| {
      assert InFlight(Apply(s, e), id);
    }
  }

  /** A step stalls a task exactly if it is one of the task's own calls and fails in one of these ways. */
  lemma StepStallsIff(s: State, e: Event, id: nat)
    requires Inv(s) && Enabled(s, e)
    ensures Stalled(Apply(s, e), id) <==> Stalled(s, id) || Drops(s, e, id)
  {
    if Moves(e) && !e.Dequeue? && s.workers[e.w].Job() == Some(id) {
      HeldByMover(s, e);
      assert WorkerOk(s, e.w);
    } else if e.Dequeue? && s.queue[0] == id {
      assert HeldBy(Apply(s, e), e.w, id);
      assert id in s.queue;
    } else if Submits(e) && e.i == id {
      SubmitterStallsIff(s, e, id);
    } else {
      StrangerStallsIff(s, e, id);
    }
  }

  lemma StepSkipsIff(s: State, e: Event, id: nat)
    requires Inv(s) && Enabled(s, e)
    ensures Skipped(Apply(s, e), id) <==> Skipped(s, id) || Skips(s, e, id)
  {
    var s' := Apply(s, e);
    if Moves(e) && !e.Dequeue? && s.workers[e.w].Job() == Some(id) {
      HeldByMover(s, e);
      assert WorkerOk(s, e.w);
    } else if e.Dequeue? && s.queue[0] == id {
      assert HeldBy(s', e.w, id);
      assert id in s.queue;
    } else {
      HeldElsewhere(s, e, id);
      if e.Enqueue? && e.i == id {
        assert SubmissionOk(s, id);
        assert id !in s.accepted;
      }
    }
  }

  predicate DropsAlong(s: State, es: seq<Event>, id: nat)
    requires CanRun(s, es)
    decreases |es|
  {
    es != [] && (Drops(s, es[0], id) || DropsAlong(Apply(s, es[0]), es[1..], id))
  }

  predicate SkipsAlong(s: State, es: seq<Event>, id: nat)
    requires CanRun(s, es)
    decreases |es|
  {
    es != [] && (Skips(s, es[0], id) || SkipsAlong(Apply(s, es[0]), es[1..], id))
  }

  lemma {:induction false} StalledIff(s: State, es: seq<Event>, id: nat)
    requires Inv(s) && CanRun(s, es)
    ensures Stalled(Run(s, es), id) <==> Stalled(s, id) || DropsAlong(s, es, id)
    ensures Skipped(Run(s, es), id) <==> Skipped(s, id) || SkipsAlong(s, es, id)
    decreases |es|
  {
    if es != [] {
      StepStallsIff(s, es[0], id);
      StepSkipsIff(s, es[0], id);
      StepKeepsInv(s, es[0]);
      StalledIff(Apply(s, es[0]), es[1..], id);
    }
  }

  /** A stalled task stays as it is in everything that may follow. */
  lemma {:induction false} StalledForever(s: State, es: seq<Event>, id: nat)
    requires Inv(s) && Stalled(s, id) && CanRun(s, es)
    ensures var s' := Run(s, es);
      Stalled(s', id) && (id in s'.tasks <==> id in s.tasks) && (id in s.tasks ==> s'.tasks[id] == s.tasks[id])
    decreases |es|
  {
    if es != [] {
      var e := es[0];
      StepStallsIff(s, e, id);
      StepKeepsInv(s, e);
      assert Target(s, e) != Some(id) by {
        if Moves(e) && !e.Dequeue? {
          HeldByMover(s, e);
        } else if Submits(e) {
          assert SubmissionOk(s, e.i);
        }
      }
      StalledForever(Apply(s, e), es[1..], id);
    }
  }

  // ---------- draining ----------

  /** Steps that bring in new work. */
  predicate Arrives(e: Event) {
    e.Submit? || e.OtherStart?
  }

  /** Nothing can happen but an arrival. */
  ghost predicate Quiescent(s: State) {
    forall e :: Enabled(s, e) ==> Arrives(e)
  }

  lemma QuiescentIsIdle(s: State)
    requires Quiescent(s) && s.workers != []
    ensures forall w :: 0 <= w < |s.workers| ==> s.workers[w].Idle?
    ensures s.queue == [] && s.others == {}
    ensures forall i :: 0 <= i < |s.submissions| ==>
      s.submissions[i].Accepted? || s.submissions[i].QueueFull? || s.submissions[i].StoreError?
  {
    var yes := Reply(true, true);
    forall w | 0 <= w < |s.workers| ensures s.workers[w].Idle? {
      var resp := Response(s.calls, "", false, None, "", "");
      assert !Enabled(s, Load(w, true)) && !Enabled(s, MarkRunning(w, yes)) && !Enabled(s, Execute(w, resp));
      assert !Enabled(s, Finish(w, yes));
      if s.workers[w].Auditing? {
        var r := s.workers[w].resp;
        var id := s.workers[w].row.taskID;
        var req := if id < |s.requests| then s.requests[id] else Request("", "", Opaque(0));
        var audit := Audit(r.callID, req.userID, req.toolName, if r.success then "success" else "failed",
                           MaskSensitive(req.input, []), Opaque(0), "");
        assert Enabled(s, SaveAudit(w, audit, yes, 0, ""));
      }
    }
    assert !Enabled(s, Dequeue(0));
    forall id | id in s.others ensures false {
      assert Enabled(s, OtherSave(Audit(id, "", "", "", Opaque(0), Opaque(0), ""), yes));
    }
    forall i | 0 <= i < |s.submissions|
      ensures s.submissions[i].Accepted? || s.submissions[i].QueueFull? || s.submissions[i].StoreError?
    {
      assert !Enabled(s, Create(i, yes)) && !Enabled(s, Enqueue(i)) && !Enabled(s, MarkFull(i, yes));
    }
  }

  /** When everything has come to rest after a run with any store faults: a submitted task has ended exactly
      if none of its own store calls dropped it, and an accepted task has been executed exactly if neither
      of its own two calls before that failed.  The faults of other tasks do not matter. */
  lemma EndsIff(capacity: nat, workers: nat, es: seq<Event>, id: nat)
    requires 0 < workers && CanRun(Init(capacity, workers), es)
    requires Quiescent(Run(Init(capacity, workers), es)) && id < |Run(Init(capacity, workers), es).submissions|
    ensures var s0 := Init(capacity, workers); var s := Run(s0, es);
      && (Ended(s, id) <==> !DropsAlong(s0, es, id))
      && (id in s.runs <==> id in s.accepted && !SkipsAlong(s0, es, id))
  {
    var s0 := Init(capacity, workers);
    var s := Run(s0, es);
    InitOk(capacity, workers);
    RunKeepsInv(s0, es);
    RunKeepsCapacity(s0, es);
    StalledIff(s0, es, id);
    QuiescentIsIdle(s);
    assert forall w: nat :: !HeldBy(s, w, id);
    assert id in s.runs ==> id in s.accepted;
  }

  predicate AllEnded(s: State) {
    forall id :: 0 <= id < |s.submissions| ==> Ended(s, id)
  }

  /** Some step of the run costs some task its end. */
  predicate DropsAny(s: State, es: seq<Event>)
    requires CanRun(s, es)
  {
    exists id :: 0 <= id < |Run(s, es).submissions| && DropsAlong(s, es, id)
  }

  lemma AllEndedIff(capacity: nat, workers: nat, es: seq<Event>)
    requires 0 < workers && CanRun(Init(capacity, workers), es)
    requires Quiescent(Run(Init(capacity, workers), es))
    ensures AllEnded(Run(Init(capacity, workers), es)) <==> !DropsAny(Init(capacity, workers), es)
  {
    var s0 := Init(capacity, workers);
    var s := Run(s0, es);
    forall id: nat | id < |s.submissions| ensures Ended(s, id) <==> !DropsAlong(s0, es, id) {
      EndsIff(capacity, workers, es, id);
    }
    if AllEnded(s) {
      forall id | 0 <= id < |s.submissions| ensures !DropsAlong(s0, es, id) {
        assert Ended(s, id);
      }
    } else {
      var id :| 0 <= id < |s.submissions| && !Ended(s, id);
      assert DropsAlong(s0, es, id);
    }
  }

  /** At rest every submitted task has ended exactly if none was dropped; and then the tasks executed are the
      tasks accepted, each exactly once.  Failed audit saves do no harm. */
  lemma Drained(capacity: nat, workers: nat, es: seq<Event>)
    requires 0 < workers && CanRun(Init(capacity, workers), es)
    requires Quiescent(Run(Init(capacity, workers), es))
    ensures var s0 := Init(capacity, workers); var s := Run(s0, es);
      && (AllEnded(s) <==> !DropsAny(s0, es))
      && (!DropsAny(s0, es) ==> multiset(s.runs) == multiset(s.accepted))
  {
    var s0 := Init(capacity, workers);
    var s := Run(s0, es);
    AllEndedIff(capacity, workers, es);
    InitOk(capacity, workers);
    RunKeepsInv(s0, es);
    if !DropsAny(s0, es) {
      forall id | id in s.accepted ensures id in s.runs {
        EndsIff(capacity, workers, es, id);
        if SkipsAlong(s0, es, id) {
          SkipsDrop(s0, es, id);
        }
      }
      SameElements(s.runs, s.accepted);
    }
  }

  lemma {:induction false} SkipsDrop(s: State, es: seq<Event>, id: nat)
    requires CanRun(s, es) && SkipsAlong(s, es, id)
    ensures DropsAlong(s, es, id)
    decreases |es|
  {
    if !Skips(s, es[0], id) {
      SkipsDrop(Apply(s, es[0]), es[1..], id);
    }
  }

  lemma RunStep(s: State, e: Event, es: seq<Event>)
    requires Enabled(s, e) && CanRun(Apply(s, e), es)
    ensures CanRun(s, [e] + es) && Run(s, [e] + es) == Run(Apply(s, e), es)
  {
    assert ([e] + es)[1..] == es;
  }

  /** A worker takes the only job and drops it: the row cannot be read, or the answer of the write that
      marks it running is lost. */
  function Drop(running: bool): seq<Event> {
    [Dequeue(0)] + if running then [Load(0, true)] + [MarkRunning(0, Reply(false, true))] else [Load(0, false)]
  }

  lemma DropRuns(s: State, running: bool)
    requires s.workers == [Idle] && s.queue == [0] && Stored(s, 0, Pending) && s.tasks[0].taskID == 0
    ensures CanRun(s, Drop(running))
    ensures var s' := Run(s, Drop(running));
      && s'.workers == [Idle] && s'.queue == [] && s'.runs == s.runs
      && s'.submissions == s.submissions && s'.accepted == s.accepted && s'.others == s.others
      && Stored(s', 0, if running then Running else Pending)
  {
    var s1 := Apply(s, Dequeue(0));
    assert [Load(0, false)] + [] == [Load(0, false)];
    var lost := MarkRunning(0, Reply(false, true));
    if running {
      var s2 := Apply(s1, Load(0, true));
      var s3 := Apply(s2, lost);
      assert [lost] + [] == [lost];
      RunStep(s2, lost, []);
      RunStep(s1, Load(0, true), [lost]);
      RunStep(s, Dequeue(0), [Load(0, true)] + [lost]);
      assert s3.workers == [Idle];
    } else {
      RunStep(s1, Load(0, false), []);
      RunStep(s, Dequeue(0), [Load(0, false)]);
      assert Apply(s1, Load(0, false)).workers == [Idle];
    }
  }

  lemma DropsJob(running: bool) returns (es: seq<Event>)
    ensures CanRun(Init(1, 1), es)
    ensures var s := Run(Init(1, 1), es);
      && s.workers == [Idle] && s.queue == [] && s.submissions == [Accepted] && s.accepted == [0] && s.others == {}
      && Stored(s, 0, if running then Running else Pending)
  {
    var s0 := Init(1, 1);
    var submit, create := Submit(Request("", "", Opaque(0))), Create(0, Reply(true, true));
    var s1 := Apply(s0, submit);
    var s2 := Apply(s1, create);
    var s3 := Apply(s2, Enqueue(0));
    DropRuns(s3, running);
    RunStep(s2, Enqueue(0), Drop(running));
    RunStep(s1, create, [Enqueue(0)] + Drop(running));
    RunStep(s0, submit, [create] + ([Enqueue(0)] + Drop(running)));
    es := [submit] + ([create] + ([Enqueue(0)] + Drop(running)));
  }

  /** One failed call, and an accepted task stays pending, or running, in everything that may follow. */
  lemma DroppedJob(running: bool) returns (es: seq<Event>)
    ensures CanRun(Init(1, 1), es) && Quiescent(Run(Init(1, 1), es)) && Run(Init(1, 1), es).accepted == [0]
    ensures forall fs :: CanRun(Run(Init(1, 1), es), fs) ==>
      Stored(Run(Run(Init(1, 1), es), fs), 0, if running then Running else Pending)
  {
    es := DropsJob(running);
    var s := Run(Init(1, 1), es);
    InitOk(1, 1);
    RunKeepsInv(Init(1, 1), es);
    assert Stalled(s, 0);
    forall fs | CanRun(s, fs) ensures Stored(Run(s, fs), 0, if running then Running else Pending) {
      StalledForever(s, fs, 0);
    }
  }

  lemma {:induction false} CountDistinct(xs: seq<nat>, x: nat)
    requires Distinct(xs)
    ensures multiset(xs)[x] == if x in xs then 1 else 0
  {
    if xs != [] {
      var init := xs[..|xs| - 1];
      assert xs == init + [xs[|xs| - 1]];
      CountDistinct(init, x);
    }
  }

  lemma SameElements(xs: seq<nat>, ys: seq<nat>)
    requires Distinct(xs) && Distinct(ys) && forall x :: x in xs <==> x in ys
    ensures multiset(xs) == multiset(ys)
  {
    forall x: nat ensures multiset(xs)[x] == multiset(ys)[x] {
      CountDistinct(xs, x);
      CountDistinct(ys, x);
    }
  }

  // ---------- the ranking ----------

  function SubmissionRank(x: Submission): nat {
    match x
    case Creating(_) => 9
    case Enqueueing(_) => 8
    case Marking(_) => 1
    case _ => 0
  }

  function WorkerRank(x: Worker): nat {
    match x
    case Idle => 0
    case Taken(_) => 6
    case Loaded(_) => 5
    case Ready(_) => 4
    case Auditing(_, _) => 3
    case Finishing(_) => 2
  }

  function SubmissionRanks(xs: seq<Submission>): nat {
    if xs == [] then 0 else SubmissionRanks(xs[..|xs| - 1]) + SubmissionRank(xs[|xs| - 1])
  }

  function WorkerRanks(xs: seq<Worker>): nat {
    if xs == [] then 0 else WorkerRanks(xs[..|xs| - 1]) + WorkerRank(xs[|xs| - 1])
  }

  /** The steps still to be taken, at most. */
  function Measure(s: State): nat {
    SubmissionRanks(s.submissions) + 7 * |s.queue| + WorkerRanks(s.workers) + |s.others|
  }

  lemma {:induction false} SubmissionRanksUpdate(xs: seq<Submission>, i: nat, x: Submission)
    requires i < |xs|
    ensures SubmissionRanks(xs[i := x]) == SubmissionRanks(xs) - SubmissionRank(xs[i]) + SubmissionRank(x)
    ensures SubmissionRank(xs[i]) <= SubmissionRanks(xs)
  {
    var n := |xs| - 1;
    if i < n {
      SubmissionRanksUpdate(xs[..n], i, x);
      assert xs[i := x][..n] == xs[..n][i := x];
    } else {
      assert xs[i := x][..n] == xs[..n];
    }
  }

  lemma {:induction false} WorkerRanksUpdate(xs: seq<Worker>, i: nat, x: Worker)
    requires i < |xs|
    ensures WorkerRanks(xs[i := x]) == WorkerRanks(xs) - WorkerRank(xs[i]) + WorkerRank(x)
    ensures WorkerRank(xs[i]) <= WorkerRanks(xs)
  {
    var n := |xs| - 1;
    if i < n {
      WorkerRanksUpdate(xs[..n], i, x);
      assert xs[i := x][..n] == xs[..n][i := x];
    } else {
      assert xs[i := x][..n] == xs[..n];
    }
  }

  lemma SubmitDecreases(s: State, e: Event)
    requires Enabled(s, e) && Submits(e)
    ensures Measure(Apply(s, e)) < Measure(s)
  {
    SubmissionRanksUpdate(s.submissions, e.i, Apply(s, e).submissions[e.i]);
  }

  lemma MoveDecreases(s: State, e: Event)
    requires Enabled(s, e) && Moves(e)
    ensures Measure(Apply(s, e)) < Measure(s)
  {
    WorkerRanksUpdate(s.workers, e.w, Apply(s, e).workers[e.w]);
  }

  /** Every step but an arrival brings the executor nearer to rest, whatever the store answers. */
  lemma StepDecreases(s: State, e: Event)
    requires Enabled(s, e) && !Arrives(e)
    ensures Measure(Apply(s, e)) < Measure(s)
  {
    if Submits(e) {
      SubmitDecreases(s, e);
    } else if Moves(e) {
      MoveDecreases(s, e);
    } else {
      assert s.others == Apply(s, e).others + {e.audit.callID};
    }
  }

  /** Without new submissions every run ends, within the measure of the state it starts in. */
  lemma {:induction false} RunsEnd(s: State, es: seq<Event>)
    requires CanRun(s, es) && forall i :: 0 <= i < |es| ==> !Arrives(es[i])
    ensures |es| + Measure(Run(s, es)) <= Measure(s)
    decreases |es|
  {
    if es != [] {
      StepDecreases(s, es[0]);
      RunsEnd(Apply(s, es[0]), es[1..]);
    }
  }
}
