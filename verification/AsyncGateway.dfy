/** The code of one submission and of one worker's job (internal/executor/executor.go:196-281), on the real
    queue, store and pipeline.  Run by itself, each takes exactly the steps that `Async` interleaves. */
module AsyncCode {
  import opened Wrappers
  import opened Masking
  import opened Store
  import opened Async
  import Executor

  datatype Job = Job(taskID: nat, req: Request)

  function Ids(queue: seq<Job>): seq<nat> {
    seq(|queue|, i requires 0 <= i < |queue| => queue[i].taskID)
  }

  /** Why a submission returns no task. */
  datatype Refusal = NotConfigured | ToolNotFound | NotAsync | StoreFailed | QueueIsFull

  lemma {:induction false} RunSnoc(s: State, es: seq<Event>, e: Event)
    requires CanRun(s, es) && Enabled(Run(s, es), e)
    ensures CanRun(s, es + [e]) && Run(s, es + [e]) == Apply(Run(s, es), e)
    decreases |es|
  {
    if es == [] {
      assert [e][1..] == [];
    } else {
      assert (es + [e])[1..] == es[1..] + [e];
      RunSnoc(Apply(s, es[0]), es[1..], e);
    }
  }

  lemma RunOne(s: State, e: Event)
    requires Enabled(s, e)
    ensures CanRun(s, [e]) && Run(s, [e]) == Apply(s, e)
  {
    assert [e][1..] == [];
    assert CanRun(Apply(s, e), []) && Run(Apply(s, e), []) == Apply(s, e);
  }

  lemma RunTwo(s: State, e: Event, f: Event)
    requires Enabled(s, e) && Enabled(Apply(s, e), f)
    ensures CanRun(s, [e, f]) && Run(s, [e, f]) == Apply(Apply(s, e), f)
  {
    assert [e, f][1..] == [f] && [f][1..] == [];
    var s2 := Apply(Apply(s, e), f);
    assert CanRun(s2, []) && Run(s2, []) == s2;
    assert CanRun(Apply(s, e), [f]) && Run(Apply(s, e), [f]) == s2;
  }

  lemma {:induction false} RunAppend(s: State, es: seq<Event>, fs: seq<Event>)
    requires CanRun(s, es) && CanRun(Run(s, es), fs)
    ensures CanRun(s, es + fs) && Run(s, es + fs) == Run(Run(s, es), fs)
    decreases |es|
  {
    if es == [] {
      assert es + fs == fs;
    } else {
      assert (es + fs)[1..] == es[1..] + fs;
      RunAppend(Apply(s, es[0]), es[1..], fs);
    }
  }

  /** All the steps are worker w's. */
  predicate StepsOf(es: seq<Event>, w: nat) {
    forall i :: 0 <= i < |es| ==> Moves(es[i]) && es[i].w == w
  }

  /** Rows are stored under their own id. */
  ghost predicate Keyed(tasks: map<nat, Task>) {
    forall id :: id in tasks ==> tasks[id].taskID == id
  }

  /** The steps of a submission that nothing interrupts. */
  function SubmitEvents(s: State, req: Request, create: Reply, mark: Reply): seq<Event> {
    var i := |s.submissions|;
    [Submit(req), Create(i, create)]
    + if !create.ok then []
      else EnlistEvents(s, i, mark)
  }

  /** The steps of the select statement and its default branch. */
  function EnlistEvents(s: State, i: nat, mark: Reply): seq<Event> {
    [Enqueue(i)] + if |s.queue| < s.capacity then [] else [MarkFull(i, mark)]
  }

  /** The last state of a submission, as its caller sees it. */
  predicate Returns(x: Submission, refusal: Option<Refusal>) {
    match x
    case Accepted => refusal == None
    case QueueFull => refusal == Some(QueueIsFull)
    case StoreError => refusal == Some(StoreFailed)
    case _ => false
  }

  /** A job carries the request that was submitted under its id. */
  predicate Carries(job: Job, requests: seq<Request>) {
    job.taskID < |requests| && job.req == requests[job.taskID]
  }

  /** What the row of a job says when it has been executed in `world` as call `callID`: how the call ended, why
      it failed if it failed, and the response of a success. */
  predicate Reports(row: Task, closed: Task, world: Executor.World, callID: nat, now: int) {
    var good := Executor.Succeeds(world) && world.saveAudit.ok;
    var timedOut := Executor.ErrorOf(world) == "tool timeout";
    && closed.taskID == row.taskID && closed.userID == row.userID
    && closed.toolName == row.toolName && closed.input == row.input
    && closed.finishedAt == Some(now)
    && (closed.status == Success <==> good)
    && (closed.status == TimedOut <==> !good && timedOut)
    && (closed.status == Failed <==> !good && !timedOut)
    && (good ==> closed.result.Some? && closed.result.value.callID == callID && closed.result.value.success
                 && closed.errorMessage == row.errorMessage)
    && (!good ==> closed.result == row.result
                  && Some(closed.errorMessage) == Executor.AfterAudit(Executor.Failure(world), world))
  }

  /** The audit rows after a call on `req` that saved its row, or failed to. */
  predicate AuditedAs(before: seq<Audit>, after: seq<Audit>, req: Request, world: Executor.World,
                      callID: nat) {
    if world.saveAudit.applied then
      && |after| == |before| + 1 && after[..|before|] == before
      && after[|before|].callID == callID && AuditFor(after[|before|], req)
      && (after[|before|].status == "success" <==> Executor.Succeeds(world))
    else after == before
  }

  lemma ClosedReports(row: Task, req: Request, resp: Response, err: Option<string>, world: Executor.World,
                      now: int, before: Executor.Ledger, after: Executor.Ledger)
    requires Executor.Entered(req, world, resp, err, before, after)
    ensures Reports(row, Closed(row, err.Some?, if err.Some? then err.value else "", resp, now), world, resp.callID, now)
    ensures AuditedAs(before.calls, after.calls, req, world, resp.callID)
    ensures err.Some? <==> !(resp.success && world.saveAudit.ok)
    ensures AuditOf(Executor.AuditRow(resp.callID, req, world), resp)
  {}

  /** The two steps of an execution, and all they change. */
  lemma ExecutionSteps(s: State, w: nat, row: Task, resp: Response, audit: Audit, reply: Reply, now: int, error: string)
    returns (run: Event, audited: Event)
    requires w < |s.workers| && s.workers[w] == Ready(row) && resp.callID == s.calls
    requires (resp.success ==> resp.error == "") && AuditOf(audit, resp) && reply.Valid()
    requires row.taskID < |s.requests| ==> AuditFor(audit, s.requests[row.taskID])
    ensures run == Execute(w, resp) && audited.SaveAudit? && audited.w == w
    ensures CanRun(s, [run, audited])
    ensures Run(s, [run, audited]) ==
      s.(runs := s.runs + [row.taskID],
         calls := s.calls + 1,
         audits := if reply.applied then s.audits + [audit] else s.audits,
         endings := s.endings[row.taskID := Ending(resp, reply.ok, error)],
         workers := s.workers[w := Finishing(Closed(row, !(resp.success && reply.ok), error, resp, now))])
  {
    run, audited := Execute(w, resp), SaveAudit(w, audit, reply, now, error);
    RunTwo(s, run, audited);
  }

  /** What a worker has done when it is through with a job. */
  predicate Worked(s: State, s': State, before: seq<Audit>, after: seq<Audit>, job: Job, load: bool, running: Reply,
                   world: Executor.World, callID: nat, now: int, finish: Reply) {
    var id := job.taskID;
    if load && running.ok && id in s.tasks then
      && s'.runs == s.runs + [id]
      && AuditedAs(before, after, job.req, world, callID)
      && (finish.applied ==> id in s'.tasks && Reports(s.tasks[id], s'.tasks[id], world, callID, now))
    else s'.runs == s.runs && after == before
  }

  class AsyncGateway {
    const executor: Executor.GatewayExecutor
    /** 0 when no queue is configured. */
    const capacity: nat
    var queue: seq<Job>
    var nextTask: nat
    ghost var state: State

    ghost predicate Valid()
      reads this, executor, executor.store
    {
      && Keyed(state.tasks)
      && state.capacity == capacity
      && state.queue == Ids(queue)
      && |state.requests| == nextTask
      && (forall k :: 0 <= k < |queue| ==> Carries(queue[k], state.requests))
      && |state.submissions| == nextTask
      && state.tasks == executor.store.tasks
      && state.audits == executor.store.calls
      && state.calls == executor.nextCall
    }

    constructor (executor: Executor.GatewayExecutor, workers: nat, capacity: nat)
      requires executor.store.tasks == map[] && executor.store.calls == [] && executor.nextCall == 0
      ensures Valid() && state == Init(this.capacity, if this.capacity == 0 then 0 else workers)
      ensures this.executor == executor && this.capacity == if workers > 0 then capacity else 0
    {
      this.executor := executor;
      this.capacity := if workers > 0 then capacity else 0;
      queue := [];
      nextTask := 0;
      state := Init(if workers > 0 then capacity else 0, if workers > 0 && capacity > 0 then workers else 0);
    }

    // ---------- one store, queue or pipeline call, and its step ----------

    method Begin(req: Request) returns (row: Task)
      requires Valid()
      modifies this`nextTask, this`state
      ensures Valid() && state == Apply(old(state), Submit(req))
      ensures row == NewTask(old(nextTask), req.userID, req.toolName, req.input)
    {
      row := NewTask(nextTask, req.userID, req.toolName, req.input);
      nextTask := nextTask + 1;
      state := Apply(state, Submit(req));
    }

    method CreateRow(id: nat, row: Task, reply: Reply) returns (ok: bool)
      requires Valid() && Enabled(state, Create(id, reply)) && state.submissions[id] == Creating(row)
      modifies this`state, executor.store`tasks
      ensures Valid() && ok == reply.ok && state == Apply(old(state), Create(id, reply))
    {
      ok := executor.store.CreateAsyncTask(row, reply);
      state := Apply(state, Create(id, reply));
    }

    /** The select statement of SubmitAsync: a full queue is not waited for. */
    method TryEnqueue(job: Job) returns (ok: bool)
      requires Valid() && Enabled(state, Enqueue(job.taskID)) && Carries(job, state.requests)
      modifies this`queue, this`state
      ensures Valid() && ok == (|old(queue)| < capacity)
      ensures queue == old(queue) + if ok then [job] else []
      ensures state == Apply(old(state), Enqueue(job.taskID))
    {
      ok := |queue| < capacity;
      if ok {
        queue := queue + [job];
      }
      state := Apply(state, Enqueue(job.taskID));
      assert ok ==> Ids(queue) == Ids(old(queue)) + [job.taskID];
    }

    method MarkRowFull(id: nat, row: Task, reply: Reply) returns (ok: bool)
      requires Valid() && Enabled(state, MarkFull(id, reply)) && state.submissions[id] == Marking(row)
      modifies this`state, executor.store`tasks
      ensures Valid() && ok == reply.ok && state == Apply(old(state), MarkFull(id, reply))
    {
      ok := executor.store.UpdateAsyncTask(row, reply);
      state := Apply(state, MarkFull(id, reply));
    }

    method TakeJob(ghost w: nat) returns (job: Job)
      requires Valid() && queue != [] && Enabled(state, Dequeue(w))
      modifies this`queue, this`state
      ensures Valid() && job == old(queue)[0] && queue == old(queue)[1..] && w < |state.workers|
      ensures Carries(job, state.requests)
      ensures state == Apply(old(state), Dequeue(w)) && state.workers[w] == Taken(job.taskID)
    {
      job := queue[0];
      queue := queue[1..];
      state := Apply(state, Dequeue(w));
      assert Ids(queue) == Ids(old(queue))[1..];
    }

    method LoadRow(ghost w: nat, id: nat, ok: bool) returns (task: Option<Task>)
      requires Valid() && Enabled(state, Load(w, ok)) && state.workers[w] == Taken(id)
      modifies this`state
      ensures Valid() && state == Apply(old(state), Load(w, ok))
      ensures task == if ok && id in state.tasks then Some(state.tasks[id]) else None
      ensures state.workers[w] == if task == None then Idle else Loaded(task.value.(status := Running))
    {
      task := executor.store.GetAsyncTask(id, ok);
      state := Apply(state, Load(w, ok));
    }

    method MarkRowRunning(ghost w: nat, row: Task, reply: Reply) returns (ok: bool)
      requires Valid() && Enabled(state, MarkRunning(w, reply)) && state.workers[w] == Loaded(row)
      modifies this`state, executor.store`tasks
      ensures Valid() && ok == reply.ok && state == Apply(old(state), MarkRunning(w, reply))
      ensures state.workers[w] == if ok then Ready(row) else Idle
    {
      ok := executor.store.UpdateAsyncTask(row, reply);
      state := Apply(state, MarkRunning(w, reply));
    }

    /** Execute on the job, and what runAsyncJob makes of its answer: the row to write back. */
    method ExecuteJob(ghost w: nat, row: Task, req: Request, world: Executor.World, now: int)
      returns (closed: Task, ghost run: Event, ghost audited: Event)
      requires Valid() && w < |state.workers| && state.workers[w] == Ready(row)
      requires row.taskID < |state.requests| && req == state.requests[row.taskID]
      requires world.saveReject.Valid() && world.saveAudit.Valid()
      modifies this`state, executor, executor.store`calls, executor.store`rejects
      ensures Valid() && run.Execute? && run.w == w && audited.SaveAudit? && audited.w == w
      ensures CanRun(old(state), [run, audited]) && state == Run(old(state), [run, audited])
      ensures w < |state.workers| && state.workers[w] == Finishing(closed)
      ensures state.runs == old(state.runs) + [row.taskID]
      ensures Reports(row, closed, world, old(executor.nextCall), now)
      ensures closed.status == Success ==> closed.result == Some(run.resp)
      ensures AuditedAs(old(executor.store.calls), executor.store.calls, req, world, old(executor.nextCall))
    {
      ghost var before := executor.Book();
      var resp, err := executor.Execute(Some(req), world);
      assert Executor.Entered(req, world, resp.value, err, before, executor.Book());
      closed := CloseRow(row, resp.value, err, now);
      ClosedReports(row, req, resp.value, err, world, now, before, executor.Book());
      run, audited := ExecutionSteps(state, w, row, resp.value, Executor.AuditRow(resp.value.callID, req, world),
                                     world.saveAudit, now, if err.Some? then err.value else "");
      state := Run(state, [run, audited]);
    }

    /** What runAsyncJob writes into its row when Execute has returned. */
    method CloseRow(row: Task, resp: Response, err: Option<string>, now: int) returns (closed: Task)
      ensures closed == Closed(row, err.Some?, if err.Some? then err.value else "", resp, now)
    {
      closed := row.(finishedAt := Some(now));
      if err.Some? {
        closed := closed.(status := Failed);
        if resp.error == "tool timeout" {
          closed := closed.(status := TimedOut);
        }
        closed := closed.(errorMessage := err.value);
      } else {
        closed := closed.(status := Success, result := Some(resp));
      }
    }

    method FinishRow(ghost w: nat, row: Task, reply: Reply) returns (ok: bool)
      requires Valid() && Enabled(state, Finish(w, reply)) && state.workers[w] == Finishing(row)
      modifies this`state, executor.store`tasks
      ensures Valid() && ok == reply.ok && state == Apply(old(state), Finish(w, reply))
      ensures state.workers[w] == Idle && state.runs == old(state.runs)
      ensures reply.applied ==> row.taskID in state.tasks && state.tasks[row.taskID] == row
    {
      ok := executor.store.UpdateAsyncTask(row, reply);
      state := Apply(state, Finish(w, reply));
    }

    // ---------- a submission and a job ----------

    /** The select statement of SubmitAsync with its default branch. */
    method Enlist(id: nat, row: Task, req: Request, mark: Reply)
      returns (task: Option<Task>, refusal: Option<Refusal>)
      requires Valid() && mark.Valid() && id < |state.submissions| && state.submissions[id] == Enqueueing(row)
      requires Carries(Job(id, req), state.requests)
      modifies this`queue, this`state, executor.store`tasks
      ensures Valid() && id < |state.submissions| && Returns(state.submissions[id], refusal)
      ensures CanRun(old(state), EnlistEvents(old(state), id, mark))
      ensures state == Run(old(state), EnlistEvents(old(state), id, mark))
      ensures task == if refusal == None then Some(row) else None
      ensures queue == old(queue) + if task.Some? then [Job(id, req)] else []
    {
      ghost var s := state;
      RunOne(s, Enqueue(id));
      var ok := TryEnqueue(Job(id, req));
      if ok {
        return Some(row), None;
      }
      RunTwo(s, Enqueue(id), MarkFull(id, mark));
      ok := MarkRowFull(id, row.(status := Failed, errorMessage := ERR_QUEUE_FULL), mark);
      return None, Some(if ok then QueueIsFull else StoreFailed);
    }

    /** SubmitAsync; `tool` is the registry's answer and says whether the tool is asynchronous. */
    method SubmitAsync(req: Request, tool: Option<bool>, create: Reply, mark: Reply)
      returns (task: Option<Task>, refusal: Option<Refusal>)
      requires Valid() && create.Valid() && mark.Valid()
      modifies this, executor.store`tasks
      ensures Valid() && (task == None <==> refusal.Some?)
      ensures capacity == 0 || tool != Some(true) ==>
        && refusal == Some(if capacity == 0 then NotConfigured
                           else if tool == None then ToolNotFound else NotAsync)
        && state == old(state)
      ensures capacity > 0 && tool == Some(true) ==>
        var es := SubmitEvents(old(state), req, create, mark);
        && CanRun(old(state), es) && state == Run(old(state), es)
        && old(nextTask) < |state.submissions| && Returns(state.submissions[old(nextTask)], refusal)
        && (task.Some? ==> task.value == NewTask(old(nextTask), req.userID, req.toolName, req.input))
        && queue == old(queue) + (if task.Some? then [Job(old(nextTask), req)] else [])
    {
      if capacity == 0 {
        return None, Some(NotConfigured);
      }
      if tool == None {
        return None, Some(ToolNotFound);
      }
      if !tool.value {
        return None, Some(NotAsync);
      }
      ghost var s := state;
      var id := nextTask;
      var row := Begin(req);
      var ok := CreateRow(id, row, create);
      ghost var es := [Submit(req), Create(id, create)];
      RunTwo(s, es[0], es[1]);
      if !ok {
        assert SubmitEvents(s, req, create, mark) == es;
        return None, Some(StoreFailed);
      }
      RunAppend(s, es, EnlistEvents(s, id, mark));
      assert SubmitEvents(s, req, create, mark) == es + EnlistEvents(s, id, mark);
      task, refusal := Enlist(id, row, req, mark);
    }

    /** The end of runAsyncJob: execute the job, then write its row back. */
    method ExecuteAndFinish(ghost w: nat, row: Task, req: Request, world: Executor.World, now: int,
                            finish: Reply)
      returns (ghost es: seq<Event>)
      requires Valid() && w < |state.workers| && state.workers[w] == Ready(row)
      requires row.taskID < |state.requests| && req == state.requests[row.taskID]
      requires finish.Valid() && world.saveReject.Valid() && world.saveAudit.Valid()
      modifies this`state, executor, executor.store
      ensures Valid() && CanRun(old(state), es) && state == Run(old(state), es)
      ensures |es| == 3 && StepsOf(es, w) && w < |state.workers| && state.workers[w].Idle?
      ensures state.runs == old(state.runs) + [row.taskID]
      ensures finish.applied ==>
        row.taskID in state.tasks && Reports(row, state.tasks[row.taskID], world, old(executor.nextCall), now)
      ensures AuditedAs(old(executor.store.calls), executor.store.calls, req, world, old(executor.nextCall))
    {
      ghost var s := state;
      var closed, run, audited := ExecuteJob(w, row, req, world, now);
      RunSnoc(s, [run, audited], Finish(w, finish));
      var _ := FinishRow(w, closed, finish);
      es := [run, audited] + [Finish(w, finish)];
    }

    /** The beginning of runAsyncJob: read the row and mark it running; None if either call fails. */
    method StartJob(ghost w: nat, id: nat, load: bool, running: Reply)
      returns (row: Option<Task>, ghost es: seq<Event>)
      requires Valid() && w < |state.workers| && state.workers[w] == Taken(id) && running.Valid()
      modifies this`state, executor.store`tasks
      ensures Valid() && CanRun(old(state), es) && state == Run(old(state), es)
      ensures StepsOf(es, w) && w < |state.workers|
      ensures state.workers[w] == if row == None then Idle else Ready(row.value)
      ensures row == if load && running.ok && id in old(state.tasks)
                     then Some(old(state.tasks[id]).(status := Running)) else None
      ensures state.runs == old(state.runs) && state.requests == old(state.requests)
    {
      ghost var s := state;
      var task := LoadRow(w, id, load);
      if task == None {
        es := [Load(w, load)];
        RunOne(s, es[0]);
        return None, es;
      }
      var started := task.value.(status := Running);
      var ok := MarkRowRunning(w, started, running);
      es := [Load(w, load), MarkRunning(w, running)];
      RunTwo(s, es[0], es[1]);
      return if ok then Some(started) else None, es;
    }

    /** runAsyncJob, on a job the worker has just dequeued. */
    method RunAsyncJob(ghost w: nat, job: Job, load: bool, running: Reply, world: Executor.World, now: int,
                       finish: Reply)
      returns (ghost es: seq<Event>)
      requires Valid() && w < |state.workers| && state.workers[w] == Taken(job.taskID)
      requires Carries(job, state.requests)
      requires running.Valid() && finish.Valid() && world.saveReject.Valid() && world.saveAudit.Valid()
      modifies this`state, executor, executor.store
      ensures Valid() && CanRun(old(state), es) && state == Run(old(state), es)
      ensures StepsOf(es, w) && w < |state.workers| && state.workers[w].Idle?
      // with the store's help the job is executed, once; it is audited as the request it carries, and its row
      // says how it went
      ensures Worked(old(state), state, old(executor.store.calls), executor.store.calls, job, load, running, world,
                     old(executor.nextCall), now, finish)
    {
      ghost var s := state;
      var row;
      row, es := StartJob(w, job.taskID, load, running);
      if row == None {
        return;
      }
      ghost var fs := ExecuteAndFinish(w, row.value, job.req, world, now, finish);
      RunAppend(s, es, fs);
      es := es + fs;
    }

    /** One turn of a worker: it takes the first job of the queue and runs it. */
    method WorkerTurn(ghost w: nat, load: bool, running: Reply, world: Executor.World, now: int, finish: Reply)
      returns (ghost es: seq<Event>)
      requires Valid() && queue != [] && w < |state.workers| && state.workers[w].Idle?
      requires running.Valid() && finish.Valid() && world.saveReject.Valid() && world.saveAudit.Valid()
      modifies this, executor, executor.store
      ensures Valid() && queue == old(queue)[1..]
      ensures CanRun(old(state), es) && state == Run(old(state), es)
      ensures es != [] && es[0] == Dequeue(w) && StepsOf(es, w)
      ensures Worked(old(state), state, old(executor.store.calls), executor.store.calls, old(queue)[0], load, running,
                     world, old(executor.nextCall), now, finish)
      ensures w < |state.workers| && state.workers[w].Idle?
    {
      ghost var s := state;
      var job := TakeJob(w);
      RunOne(s, Dequeue(w));
      ghost var fs := RunAsyncJob(w, job, load, running, world, now, finish);
      RunAppend(s, [Dequeue(w)], fs);
      es := [Dequeue(w)] + fs;
    }
  }
}
