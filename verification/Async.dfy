/** The asynchronous executor (internal/executor/executor.go:71-89 and 196-281): submitters that write a
    pending row and try to enqueue a job, a bounded queue, and workers that read the row, mark it running,
    execute the job and write the row back.

    Submitters, workers and other callers of Execute interleave at every store call, and every store call
    may fail, with or without effect.  The model is a step relation; `AsyncGateway` shows that the code of
    one submission and of one job, run by itself, takes these steps. */
module Async {
  import opened Wrappers
  import opened Masking
  import opened Store

  // ---------- states ----------

  /** A submission: before each of its store or queue calls, and after its last. */
  datatype Submission =
    | Creating(row: Task)
    | Enqueueing(row: Task)
    | Marking(row: Task)
    | Accepted
    | QueueFull
    | StoreError

  /** A worker: before each of the calls it makes for its job. */
  datatype Worker =
    | Idle
    | Taken(id: nat)
    | Loaded(row: Task)
    | Ready(row: Task)
    | Auditing(row: Task, resp: Response)
    | Finishing(row: Task)
  {
    /** The job a worker holds. */
    function Job(): Option<nat> {
      match this
      case Idle => None
      case Taken(id) => Some(id)
      case _ => Some(row.taskID)
    }
  }

  /** The response of a task's run, whether its audit was saved, and the error Execute returned. */
  datatype Ending = Ending(resp: Response, saved: bool, error: string)

  /** Submission i has task id i: NewID gives fresh ids.  `accepted`, `taken` and `runs` are history: the jobs
      enqueued, dequeued and executed, in order; so are `requests`, by task id, and `endings`, how the run of
      a task ended.  `calls` is the next call id, and `others` are the calls of other callers of Execute whose
      audit is not yet saved. */
  datatype State = State(
    capacity: nat,
    tasks: map<nat, Task>,
    audits: seq<Audit>,
    submissions: seq<Submission>,
    queue: seq<nat>,
    workers: seq<Worker>,
    accepted: seq<nat>,
    taken: seq<nat>,
    runs: seq<nat>,
    calls: nat,
    others: set<nat>,
    requests: seq<Request>,
    endings: map<nat, Ending>)

  function Init(capacity: nat, workers: nat): State {
    State(capacity, map[], [], [], [], seq(workers, _ => Idle), [], [], [], 0, {}, [], map[])
  }

  datatype Event =
    | Submit(req: Request)
    | Create(i: nat, reply: Reply)
    | Enqueue(i: nat)
    | MarkFull(i: nat, reply: Reply)
    | Dequeue(w: nat)
    | Load(w: nat, ok: bool)
    | MarkRunning(w: nat, reply: Reply)
    | Execute(w: nat, resp: Response)
    | SaveAudit(w: nat, audit: Audit, reply: Reply, now: int, error: string)
    | Finish(w: nat, reply: Reply)
    | OtherStart
    | OtherSave(audit: Audit, reply: Reply)

  /** The audit row of a call whose response is `resp`. */
  predicate AuditOf(audit: Audit, resp: Response) {
    audit.callID == resp.callID && (audit.status == "success" <==> resp.success)
  }

  /** The audit row names the caller, the tool and the masked input of a request. */
  predicate AuditFor(audit: Audit, req: Request) {
    audit.userID == req.userID && audit.toolName == req.toolName && audit.input == MaskSensitive(req.input, [])
  }

  predicate Enabled(s: State, e: Event) {
    match e
    case Submit(_) => true
    case Create(i, reply) => i < |s.submissions| && s.submissions[i].Creating? && reply.Valid()
    case Enqueue(i) => i < |s.submissions| && s.submissions[i].Enqueueing?
    case MarkFull(i, reply) => i < |s.submissions| && s.submissions[i].Marking? && reply.Valid()
    case Dequeue(w) => w < |s.workers| && s.workers[w].Idle? && s.queue != []
    case Load(w, _) => w < |s.workers| && s.workers[w].Taken?
    case MarkRunning(w, reply) => w < |s.workers| && s.workers[w].Loaded? && reply.Valid()
    case Execute(w, resp) =>
      w < |s.workers| && s.workers[w].Ready? && resp.callID == s.calls && (resp.success ==> resp.error == "")
    case SaveAudit(w, audit, reply, _, _) =>
      && w < |s.workers| && s.workers[w].Auditing? && AuditOf(audit, s.workers[w].resp) && reply.Valid()
      && (s.workers[w].row.taskID < |s.requests| ==> AuditFor(audit, s.requests[s.workers[w].row.taskID]))
    case Finish(w, reply) => w < |s.workers| && s.workers[w].Finishing? && reply.Valid()
    case OtherStart => true
    case OtherSave(audit, reply) => audit.callID in s.others && reply.Valid()
  }

  /** The steps of a worker. */
  predicate Moves(e: Event) {
    e.Dequeue? || e.Load? || e.MarkRunning? || e.Execute? || e.SaveAudit? || e.Finish?
  }

  /** The steps of a submission after its first. */
  predicate Submits(e: Event) {
    e.Create? || e.Enqueue? || e.MarkFull?
  }

  const ERR_QUEUE_FULL := "async queue is full"

  function NewTask(id: nat, userID: string, toolName: string, input: Value): Task {
    Task(id, userID, toolName, Pending, MaskSensitive(input, []), None, "", None)
  }

  /** The row a worker writes back, from what Execute returned: whether there was an error (the call failed
      or its audit was not saved), and the response. */
  function Closed(row: Task, failed: bool, error: string, resp: Response, now: int): Task {
    var row := row.(finishedAt := Some(now));
    if !failed then row.(status := Success, result := Some(resp))
    else row.(status := if resp.error == "tool timeout" then TimedOut else Failed, errorMessage := error)
  }

  function SetSubmission(s: State, i: nat, x: Submission): State
    requires i < |s.submissions|
  {
    s.(submissions := s.submissions[i := x])
  }

  function SetWorker(s: State, w: nat, x: Worker): State
    requires w < |s.workers|
  {
    s.(workers := s.workers[w := x])
  }

  function Apply(s: State, e: Event): State
    requires Enabled(s, e)
  {
    match e
    case Submit(req) =>
      s.(submissions := s.submissions + [Creating(NewTask(|s.submissions|, req.userID, req.toolName, req.input))],
         requests := s.requests + [req])
    case Create(i, reply) =>
      var row := s.submissions[i].row;
      SetSubmission(s.(tasks := Put(s.tasks, row, reply)), i, if reply.ok then Enqueueing(row) else StoreError)
    case Enqueue(i) =>
      var row := s.submissions[i].row;
      if |s.queue| < s.capacity then
        SetSubmission(s.(queue := s.queue + [i], accepted := s.accepted + [i]), i, Accepted)
      else SetSubmission(s, i, Marking(row.(status := Failed, errorMessage := ERR_QUEUE_FULL)))
    case MarkFull(i, reply) =>
      SetSubmission(s.(tasks := Put(s.tasks, s.submissions[i].row, reply)), i,
                    if reply.ok then QueueFull else StoreError)
    case Dequeue(w) =>
      SetWorker(s.(queue := s.queue[1..], taken := s.taken + [s.queue[0]]), w, Taken(s.queue[0]))
    case Load(w, ok) =>
      var id := s.workers[w].id;
      SetWorker(s, w, if ok && id in s.tasks then Loaded(s.tasks[id].(status := Running)) else Idle)
    case MarkRunning(w, reply) =>
      var row := s.workers[w].row;
      SetWorker(s.(tasks := Put(s.tasks, row, reply)), w, if reply.ok then Ready(row) else Idle)
    case Execute(w, resp) =>
      var row := s.workers[w].row;
      SetWorker(s.(runs := s.runs + [row.taskID], calls := s.calls + 1), w, Auditing(row, resp))
    case SaveAudit(w, audit, reply, now, error) =>
      var row := s.workers[w].row;
      var resp := s.workers[w].resp;
      SetWorker(s.(audits := if reply.applied then s.audits + [audit] else s.audits,
                   endings := s.endings[row.taskID := Ending(resp, reply.ok, error)]), w,
                Finishing(Closed(row, !(resp.success && reply.ok), error, resp, now)))
    case Finish(w, reply) =>
      SetWorker(s.(tasks := Put(s.tasks, s.workers[w].row, reply)), w, Idle)
    case OtherStart => s.(others := s.others + {s.calls}, calls := s.calls + 1)
    case OtherSave(audit, reply) =>
      s.(audits := if reply.applied then s.audits + [audit] else s.audits, others := s.others - {audit.callID})
  }

  predicate CanRun(s: State, es: seq<Event>)
    decreases |es|
  {
    es != [] ==> Enabled(s, es[0]) && CanRun(Apply(s, es[0]), es[1..])
  }

  function Run(s: State, es: seq<Event>): State
    requires CanRun(s, es)
    decreases |es|
  {
    if es == [] then s else Run(Apply(s, es[0]), es[1..])
  }

  // ---------- the invariant ----------

  ghost predicate Distinct(xs: seq<nat>) {
    forall i, j :: 0 <= i < j < |xs| ==> xs[i] != xs[j]
  }

  /** Jobs leave the queue in the order they entered it, each once; the queue keeps its bound. */
  ghost predicate Fifo(s: State) {
    && |s.queue| <= s.capacity
    && s.accepted == s.taken + s.queue
    && Distinct(s.accepted)
    && (forall id :: id in s.accepted ==> id < |s.submissions| && s.submissions[id] == Accepted)
  }

  /** Every executed job was dequeued, and none is executed twice. */
  ghost predicate OnceEach(s: State) {
    Distinct(s.runs) && forall id :: id in s.runs ==> id in s.taken
  }

  ghost predicate Stored(s: State, id: nat, status: Status) {
    id in s.tasks && s.tasks[id].status == status
  }

  /** Nothing has been reported about the task yet. */
  ghost predicate Unreported(row: Task) {
    row.result == None && row.errorMessage == "" && row.finishedAt == None
  }

  /** The row as it stood before a worker or a submission reported the end of the task in it. */
  ghost function Before(row: Task, status: Status): Task {
    row.(status := status, result := None, errorMessage := "", finishedAt := None)
  }

  /** The row of a submission that found the queue full: no finish time is set. */
  ghost predicate FullRow(row: Task) {
    row.status == Failed && row.errorMessage == ERR_QUEUE_FULL && row.result == None && row.finishedAt == None
  }

  /** A row is what the submission that is still working on it last wrote. */
  ghost predicate SubmissionOk(s: State, i: nat)
    requires i < |s.submissions|
  {
    match s.submissions[i]
    case Creating(row) => row.taskID == i && row.status == Pending && Unreported(row) && i !in s.tasks
    case Enqueueing(row) => row.taskID == i && row.status == Pending && i in s.tasks && s.tasks[i] == row
    case Marking(row) =>
      row.taskID == i && FullRow(row) && i in s.tasks && s.tasks[i] == Before(row, Pending)
    case Accepted => i in s.accepted && i in s.tasks
    case QueueFull => Stored(s, i, Failed)
    case StoreError => i in s.tasks ==> s.tasks[i].status == Pending || s.tasks[i].status == Failed
  }

  /** A row is what the worker that holds its job last read or wrote. */
  ghost predicate WorkerOk(s: State, w: nat)
    requires w < |s.workers|
  {
    match s.workers[w]
    case Idle => true
    case Taken(id) => id in s.taken && id !in s.runs && Stored(s, id, Pending)
    case Loaded(row) =>
      var id := row.taskID;
      id in s.taken && id !in s.runs && Stored(s, id, Pending) && row == s.tasks[id].(status := Running)
    case Ready(row) =>
      var id := row.taskID;
      id in s.taken && id !in s.runs && id in s.tasks && s.tasks[id] == row && row.status == Running
    case Auditing(row, resp) =>
      var id := row.taskID;
      && id in s.runs && id in s.tasks && s.tasks[id] == row && row.status == Running
      && (resp.success ==> resp.error == "")
    case Finishing(row) =>
      var id := row.taskID;
      && id in s.runs && row.status.Terminal() && row.finishedAt.Some?
      && id in s.tasks && s.tasks[id] == Before(row, Running)
      && (row.status == Success ==> Audited(s, row))
  }

  /** The audit row of the run that a row reports is stored, with the same outcome. */
  ghost predicate Audited(s: State, row: Task) {
    && row.result.Some?
    && row.result.value.success
    && exists k :: 0 <= k < |s.audits| && AuditOf(s.audits[k], row.result.value)
  }

  ghost predicate Workers(s: State) {
    && (forall w :: 0 <= w < |s.workers| ==> WorkerOk(s, w))
    && (forall v, w :: 0 <= v < w < |s.workers| && s.workers[v].Job().Some? ==>
          s.workers[v].Job() != s.workers[w].Job())
  }

  ghost predicate Submissions(s: State) {
    forall i :: 0 <= i < |s.submissions| ==> SubmissionOk(s, i)
  }

  ghost predicate RowOk(s: State, id: nat)
    requires id in s.tasks
  {
    var row := s.tasks[id];
    && id < |s.submissions|
    && row.taskID == id
    && (row.status == Success ==> Audited(s, row))
    && (id in s.queue ==> row.status == Pending)
    && if row.status.Terminal()
       then if id in s.accepted then row.finishedAt.Some? else FullRow(row)
       else Unreported(row)
  }

  ghost predicate Rows(s: State) {
    forall id :: id in s.tasks ==> RowOk(s, id)
  }

  ghost predicate Inv(s: State) {
    Fifo(s) && OnceEach(s) && Submissions(s) && Workers(s) && Rows(s)
  }

  // ---------- every step keeps it ----------

  lemma StepKeepsFifo(s: State, e: Event)
    requires Inv(s) && Enabled(s, e)
    ensures Fifo(Apply(s, e))
  {
    var s' := Apply(s, e);
    if Submits(e) {
      assert SubmissionOk(s, e.i);
      assert e.i !in s.accepted;
      assert s'.accepted == s'.taken + s'.queue;
    } else if e.Dequeue? {
      assert s'.taken + s'.queue == s.taken + s.queue;
    }
  }

  lemma StepKeepsOnceEach(s: State, e: Event)
    requires Inv(s) && Enabled(s, e)
    ensures OnceEach(Apply(s, e))
  {
    if e.Execute? {
      assert WorkerOk(s, e.w);
    }
  }

  /** A job held by a worker has been accepted, has a row, and is not in the queue. */
  lemma HeldJob(s: State, w: nat)
    requires Fifo(s) && OnceEach(s) && Submissions(s) && Workers(s)
    requires w < |s.workers| && s.workers[w].Job().Some?
    ensures var id := s.workers[w].Job().value;
      id in s.taken && id !in s.queue && id in s.tasks && id < |s.submissions| && s.submissions[id] == Accepted
  {
    var id := s.workers[w].Job().value;
    assert WorkerOk(s, w);
    var k :| 0 <= k < |s.taken| && s.taken[k] == id;
    assert s.accepted[k] == id && id in s.accepted;
    assert forall n :: 0 <= n < |s.queue| ==> s.accepted[|s.taken| + n] == s.queue[n];
    assert SubmissionOk(s, id);
  }

  /** The job at the head of the queue is new to the workers. */
  lemma QueuedJob(s: State)
    requires Fifo(s) && OnceEach(s) && Submissions(s) && Rows(s) && s.queue != []
    ensures var id := s.queue[0];
      id !in s.taken && id !in s.runs && Stored(s, id, Pending)
  {
    assert s.queue[0] in s.queue;
    var id := s.queue[0];
    assert s.accepted[|s.taken|] == id && id in s.accepted;
    assert forall k :: 0 <= k < |s.taken| ==> s.accepted[k] == s.taken[k];
    assert SubmissionOk(s, id);
  }

  /** The two states agree on every row but that of `id`. */
  ghost predicate SameRows(s: State, s': State, id: nat) {
    forall i :: i != id ==> (i in s'.tasks <==> i in s.tasks) && (i in s.tasks ==> s'.tasks[i] == s.tasks[i])
  }

  /** Steps of a submission touch no other row than its own. */
  lemma SubmitterStep(s: State, e: Event)
    requires Inv(s) && Enabled(s, e) && Submits(e)
    ensures var s' := Apply(s, e);
      && s.submissions[e.i] != Accepted
      && SameRows(s, s', e.i)
  {
    assert SubmissionOk(s, e.i);
  }

  lemma AuditedStays(s: State, e: Event, row: Task)
    requires Enabled(s, e) && Audited(s, row)
    ensures Audited(Apply(s, e), row)
  {
    var s' := Apply(s, e);
    var k :| 0 <= k < |s.audits| && AuditOf(s.audits[k], row.result.value);
    assert s'.audits[k] == s.audits[k];
  }

  lemma StepKeepsSubmissions(s: State, e: Event)
    requires Inv(s) && Enabled(s, e)
    ensures Submissions(Apply(s, e))
  {
    var s' := Apply(s, e);
    if Moves(e) && s.workers[e.w].Job().Some? {
      HeldJob(s, e.w);
    } else if Submits(e) {
      SubmitterStep(s, e);
    }
    assert forall id :: id in s.tasks ==> RowOk(s, id) && id < |s.submissions|;
    forall i | 0 <= i < |s'.submissions| ensures SubmissionOk(s', i) {
      if i == |s.submissions| {
        assert i !in s.tasks;
      } else if Submits(e) && i == e.i {
        MovedSubmissionOk(s, e);
      } else {
        SubmissionStays(s, e, i);
      }
    }
  }

  lemma MovedSubmissionOk(s: State, e: Event)
    requires Inv(s) && Enabled(s, e) && Submits(e)
    ensures SubmissionOk(Apply(s, e), e.i)
  {
    assert SubmissionOk(s, e.i);
  }

  lemma SubmissionStays(s: State, e: Event, i: nat)
    requires Inv(s) && Enabled(s, e) && i < |s.submissions| && !(Submits(e) && i == e.i)
    requires Moves(e) && s.workers[e.w].Job().Some? ==>
      var id := s.workers[e.w].Job().value; id < |s.submissions| && s.submissions[id] == Accepted
    requires Submits(e) ==> SameRows(s, Apply(s, e), e.i)
    ensures SubmissionOk(Apply(s, e), i)
  {
    assert SubmissionOk(s, i);
  }

  /** A worker that does not move still fits its row. */
  lemma OtherWorkerOk(s: State, e: Event, w: nat)
    requires Inv(s) && Enabled(s, e) && w < |s.workers|
    requires Moves(e) ==> w != e.w
    ensures WorkerOk(Apply(s, e), w)
  {
    var s' := Apply(s, e);
    assert WorkerOk(s, w);
    if s.workers[w].Job().Some? {
      HeldJob(s, w);
      OtherJobUntouched(s, e, s.workers[w].Job().value, w);
      if s.workers[w].Finishing? && s.workers[w].row.status == Success {
        AuditedStays(s, e, s.workers[w].row);
      }
    }
  }

  lemma OtherJobUntouched(s: State, e: Event, id: nat, w: nat)
    requires Inv(s) && Enabled(s, e) && w < |s.workers| && s.workers[w].Job() == Some(id)
    requires Moves(e) ==> w != e.w
    ensures var s' := Apply(s, e);
      && s'.workers[w] == s.workers[w]
      && id in s.tasks && id in s'.tasks && s'.tasks[id] == s.tasks[id]
      && (id in s.taken ==> id in s'.taken)
      && (id in s.runs <==> id in s'.runs)
  {
    HeldJob(s, w);
    if Submits(e) {
      SubmitterStep(s, e);
    } else if Moves(e) {
      assert WorkerOk(s, e.w);
    }
  }

  /** The worker that moves fits its row afterwards. */
  lemma MovedWorkerOk(s: State, e: Event)
    requires Inv(s) && Enabled(s, e)
    requires Moves(e)
    ensures WorkerOk(Apply(s, e), e.w)
  {
    var s' := Apply(s, e);
    assert WorkerOk(s, e.w);
    if e.Dequeue? {
      QueuedJob(s);
    } else {
      HeldJob(s, e.w);
      if e.SaveAudit? {
        assert e.reply.applied ==> s'.audits[|s.audits|] == e.audit;
      }
    }
  }

  lemma StepKeepsWorkers(s: State, e: Event)
    requires Inv(s) && Enabled(s, e)
    ensures Workers(Apply(s, e))
  {
    var s' := Apply(s, e);
    forall w | 0 <= w < |s'.workers| ensures WorkerOk(s', w) {
      if Moves(e) && w == e.w {
        MovedWorkerOk(s, e);
      } else {
        OtherWorkerOk(s, e, w);
      }
    }
    if e.Dequeue? {
      QueuedJob(s);
      forall w | 0 <= w < |s.workers| && s.workers[w].Job().Some? ensures s.workers[w].Job().value != s.queue[0] {
        HeldJob(s, w);
      }
    }
  }

  /** The row a step writes, if it writes one. */
  ghost function Target(s: State, e: Event): Option<nat>
    requires Enabled(s, e)
  {
    match e
    case Create(i, reply) => if reply.applied then Some(s.submissions[i].row.taskID) else None
    case MarkFull(i, reply) => if reply.applied then Some(s.submissions[i].row.taskID) else None
    case MarkRunning(w, reply) => if reply.applied then Some(s.workers[w].row.taskID) else None
    case Finish(w, reply) => if reply.applied then Some(s.workers[w].row.taskID) else None
    case _ => None
  }

  lemma WrittenRowOk(s: State, e: Event)
    requires Inv(s) && Enabled(s, e) && Target(s, e).Some?
    ensures var s' := Apply(s, e); var id := Target(s, e).value;
      id in s'.tasks && RowOk(s', id)
  {
    var s' := Apply(s, e);
    if Submits(e) {
      assert SubmissionOk(s, e.i);
    } else {
      HeldJob(s, e.w);
      assert WorkerOk(s, e.w);
      if e.Finish? && s.workers[e.w].row.status == Success {
        AuditedStays(s, e, s.workers[e.w].row);
      }
    }
  }

  lemma UnwrittenRowOk(s: State, e: Event, id: nat)
    requires Inv(s) && Enabled(s, e) && Target(s, e) != Some(id) && id in Apply(s, e).tasks
    ensures id in s.tasks && Apply(s, e).tasks[id] == s.tasks[id]
    ensures RowOk(Apply(s, e), id)
  {
    var s' := Apply(s, e);
    assert RowOk(s, id);
    if Submits(e) {
      assert SubmissionOk(s, e.i);
    } else if e.Dequeue? {
      assert id in s'.queue ==> id in s.queue;
    }
    if s.tasks[id].status == Success {
      AuditedStays(s, e, s.tasks[id]);
    }
  }

  lemma StepKeepsRows(s: State, e: Event)
    requires Inv(s) && Enabled(s, e)
    ensures Rows(Apply(s, e))
  {
    var s' := Apply(s, e);
    forall id | id in s'.tasks ensures RowOk(s', id) {
      if Target(s, e) == Some(id) {
        WrittenRowOk(s, e);
      } else {
        UnwrittenRowOk(s, e, id);
      }
    }
  }

  lemma StepKeepsInv(s: State, e: Event)
    requires Inv(s) && Enabled(s, e)
    ensures Inv(Apply(s, e))
  {
    StepKeepsFifo(s, e);
    StepKeepsOnceEach(s, e);
    StepKeepsSubmissions(s, e);
    StepKeepsWorkers(s, e);
    StepKeepsRows(s, e);
  }

  lemma {:induction false} RunKeepsInv(s: State, es: seq<Event>)
    requires Inv(s) && CanRun(s, es)
    ensures Inv(Run(s, es))
    decreases |es|
  {
    if es != [] {
      StepKeepsInv(s, es[0]);
      RunKeepsInv(Apply(s, es[0]), es[1..]);
    }
  }
}
