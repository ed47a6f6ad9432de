/** What the stored row of a task says, in every run of the asynchronous executor: whose request it is for, and
    how the task's own run ended. */
module AsyncReports {
  import opened Wrappers
  import opened Masking
  import opened Store
  import opened Async
  import opened AsyncRuns

  /** The row is for the request: its caller, its tool and its masked input. */
  predicate IsFor(row: Task, req: Request) {
    row.userID == req.userID && row.toolName == req.toolName && row.input == MaskSensitive(req.input, [])
  }

  /** The row says how the run ended: a success with its response, a timeout if that is the response's error,
      and a failure otherwise, with the error that was returned. */
  predicate Tells(row: Task, end: Ending) {
    var good := end.resp.success && end.saved;
    && (row.status == Success <==> good)
    && (row.status == TimedOut <==> !good && end.resp.error == "tool timeout")
    && (row.status == Failed <==> !good && end.resp.error != "tool timeout")
    && row.result == (if good then Some(end.resp) else None)
    && row.errorMessage == (if good then "" else end.error)
  }

  /** A saved audit row of a run names the request of its task. */
  predicate AuditedFor(s: State, id: nat) {
    id in s.endings && id < |s.requests| && s.endings[id].saved ==>
      exists k :: 0 <= k < |s.audits| && AuditOf(s.audits[k], s.endings[id].resp)
                  && AuditFor(s.audits[k], s.requests[id])
  }

  /** The row a submission or a worker works with. */
  function SubmissionRow(x: Submission): Option<Task> {
    match x
    case Creating(row) => Some(row)
    case Enqueueing(row) => Some(row)
    case Marking(row) => Some(row)
    case _ => None
  }

  function WorkerRow(x: Worker): Option<Task> {
    match x
    case Idle => None
    case Taken(_) => None
    case _ => Some(x.row)
  }

  ghost predicate RowsAreFor(s: State) {
    && |s.requests| == |s.submissions|
    && (forall id :: id in s.tasks ==> id < |s.requests| && IsFor(s.tasks[id], s.requests[id]))
    && (forall i :: 0 <= i < |s.submissions| && SubmissionRow(s.submissions[i]).Some? ==>
          IsFor(SubmissionRow(s.submissions[i]).value, s.requests[i]))
    && (forall w :: 0 <= w < |s.workers| && WorkerRow(s.workers[w]).Some? ==>
          var row := WorkerRow(s.workers[w]).value;
          row.taskID < |s.requests| && IsFor(row, s.requests[row.taskID]))
  }

  /** A row that reports an end, stored or about to be written by a worker, tells how the run ended. */
  ghost predicate RowsTell(s: State) {
    && (forall id :: id in s.tasks && s.tasks[id].status.Terminal() && id in s.accepted ==>
          id in s.endings && Tells(s.tasks[id], s.endings[id]))
    && (forall w :: 0 <= w < |s.workers| && s.workers[w].Finishing? ==>
          var row := s.workers[w].row;
          row.taskID in s.endings && Tells(row, s.endings[row.taskID]))
  }

  ghost predicate EndingsAudited(s: State) {
    forall id :: id in s.endings ==> id < |s.requests| && AuditedFor(s, id)
  }

  lemma StoredIsFor(s: State, e: Event, id: nat)
    requires Inv(s) && RowsAreFor(s) && Enabled(s, e) && id in Apply(s, e).tasks
    ensures var s' := Apply(s, e); id < |s'.requests| && IsFor(s'.tasks[id], s'.requests[id])
  {
    if Target(s, e) != Some(id) {
      UnwrittenRowOk(s, e, id);
    } else if Submits(e) {
      assert SubmissionOk(s, e.i);
    }
  }

  lemma SubmissionIsFor(s: State, e: Event, i: nat)
    requires RowsAreFor(s) && Enabled(s, e)
    requires i < |Apply(s, e).submissions| && SubmissionRow(Apply(s, e).submissions[i]).Some?
    ensures var s' := Apply(s, e);
      |s'.requests| == |s'.submissions| && IsFor(SubmissionRow(s'.submissions[i]).value, s'.requests[i])
  {
    if i < |s.submissions| {
      assert SubmissionRow(s.submissions[i]).Some?;
    }
  }

  lemma WorkerIsFor(s: State, e: Event, w: nat)
    requires RowsAreFor(s) && Enabled(s, e) && Inv(s)
    requires w < |Apply(s, e).workers| && WorkerRow(Apply(s, e).workers[w]).Some?
    ensures var s' := Apply(s, e); var row := WorkerRow(s'.workers[w]).value;
      row.taskID < |s'.requests| && IsFor(row, s'.requests[row.taskID])
  {
    if e.Load? && w == e.w {
      assert RowOk(s, s.workers[w].id);
    } else {
      assert WorkerRow(s.workers[w]).Some?;
    }
  }

  lemma StepKeepsFor(s: State, e: Event)
    requires Inv(s) && RowsAreFor(s) && Enabled(s, e)
    ensures RowsAreFor(Apply(s, e))
  {
    var s' := Apply(s, e);
    forall id | id in s'.tasks ensures id < |s'.requests| && IsFor(s'.tasks[id], s'.requests[id]) {
      StoredIsFor(s, e, id);
    }
    forall i | 0 <= i < |s'.submissions| && SubmissionRow(s'.submissions[i]).Some?
      ensures |s'.requests| == |s'.submissions| && IsFor(SubmissionRow(s'.submissions[i]).value, s'.requests[i])
    {
      SubmissionIsFor(s, e, i);
    }
    forall w | 0 <= w < |s'.workers| && WorkerRow(s'.workers[w]).Some?
      ensures var row := WorkerRow(s'.workers[w]).value;
        row.taskID < |s'.requests| && IsFor(row, s'.requests[row.taskID])
    {
      WorkerIsFor(s, e, w);
    }
  }

  lemma StepKeepsTelling(s: State, e: Event)
    requires Inv(s) && RowsTell(s) && Enabled(s, e)
    ensures RowsTell(Apply(s, e))
  {
    var s' := Apply(s, e);
    if Moves(e) && !e.Dequeue? {
      HeldByMover(s, e);
      assert WorkerOk(s, e.w);
    }
    forall id | id in s'.tasks && s'.tasks[id].status.Terminal() && id in s'.accepted
      ensures id in s'.endings && Tells(s'.tasks[id], s'.endings[id])
    {
      StoredTells(s, e, id);
    }
    forall w | 0 <= w < |s'.workers| && s'.workers[w].Finishing?
      ensures var row := s'.workers[w].row; row.taskID in s'.endings && Tells(row, s'.endings[row.taskID])
    {
      WorkerTells(s, e, w);
    }
  }

  /** A submission that still works has not been accepted, and works on its own row. */
  lemma SubmitterIsNew(s: State, e: Event)
    requires Inv(s) && Enabled(s, e) && Submits(e)
    ensures e.i !in s.accepted && s.submissions[e.i].row.taskID == e.i
    ensures e.Enqueue? ==> Stored(s, e.i, Pending)
  {
    assert SubmissionOk(s, e.i);
  }

  lemma StoredTells(s: State, e: Event, id: nat)
    requires Inv(s) && RowsTell(s) && Enabled(s, e)
    requires var s' := Apply(s, e); id in s'.tasks && s'.tasks[id].status.Terminal() && id in s'.accepted
    ensures var s' := Apply(s, e); id in s'.endings && Tells(s'.tasks[id], s'.endings[id])
  {
    var s' := Apply(s, e);
    if Submits(e) {
      SubmitterIsNew(s, e);
    }
    if Target(s, e) == Some(id) {
      if Moves(e) {
        assert WorkerOk(s, e.w);
      }
    } else {
      UnwrittenRowOk(s, e, id);
      if e.SaveAudit? {
        HeldByMover(s, e);
      }
    }
  }

  lemma WorkerTells(s: State, e: Event, w: nat)
    requires Inv(s) && RowsTell(s) && Enabled(s, e)
    requires w < |Apply(s, e).workers| && Apply(s, e).workers[w].Finishing?
    ensures var s' := Apply(s, e); var row := s'.workers[w].row;
      row.taskID in s'.endings && Tells(row, s'.endings[row.taskID])
  {
    if e.SaveAudit? {
      assert WorkerOk(s, e.w);
      if w == e.w {
        assert RowOk(s, s.workers[w].row.taskID);
      } else {
        assert s.workers[w].Job() != s.workers[e.w].Job();
      }
    }
  }

  lemma StepKeepsAudited(s: State, e: Event)
    requires Inv(s) && RowsAreFor(s) && EndingsAudited(s) && Enabled(s, e)
    ensures EndingsAudited(Apply(s, e))
  {
    var s' := Apply(s, e);
    forall id | id in s'.endings ensures id < |s'.requests| && AuditedFor(s', id) {
      if e.SaveAudit? && s.workers[e.w].row.taskID == id {
        assert e.reply.applied ==> s'.audits[|s.audits|] == e.audit;
      } else if s.endings[id].saved {
        assert AuditedFor(s, id);
        var k :| 0 <= k < |s.audits| && AuditOf(s.audits[k], s.endings[id].resp)
          && AuditFor(s.audits[k], s.requests[id]);
        assert s'.audits[k] == s.audits[k];
      }
    }
  }

  lemma {:induction false} RunKeepsReports(s: State, es: seq<Event>)
    requires Inv(s) && RowsAreFor(s) && RowsTell(s) && EndingsAudited(s) && CanRun(s, es)
    ensures var s' := Run(s, es); RowsAreFor(s') && RowsTell(s') && EndingsAudited(s')
    decreases |es|
  {
    if es != [] {
      StepKeepsFor(s, es[0]);
      StepKeepsTelling(s, es[0]);
      StepKeepsAudited(s, es[0]);
      StepKeepsInv(s, es[0]);
      RunKeepsReports(Apply(s, es[0]), es[1..]);
    }
  }

  // ---------- where an ending comes from ----------

  /** The step in which the run of task `id` ends so: its worker saves the audit of its response. */
  predicate EndsSo(s: State, e: Event, id: nat, end: Ending)
    requires Enabled(s, e)
  {
    && e.SaveAudit? && s.workers[e.w].row.taskID == id
    && end == Ending(s.workers[e.w].resp, e.reply.ok, e.error)
  }

  predicate EndsSoAlong(s: State, es: seq<Event>, id: nat, end: Ending)
    requires CanRun(s, es)
    decreases |es|
  {
    es != [] && (EndsSo(s, es[0], id, end) || EndsSoAlong(Apply(s, es[0]), es[1..], id, end))
  }

  lemma {:induction false} EndingIsAStep(s: State, es: seq<Event>, id: nat)
    requires CanRun(s, es) && id in Run(s, es).endings
    ensures var end := Run(s, es).endings[id];
      (id in s.endings && s.endings[id] == end) || EndsSoAlong(s, es, id, end)
    decreases |es|
  {
    if es != [] {
      EndingIsAStep(Apply(s, es[0]), es[1..], id);
    }
  }

  /** In every run, with any store faults: a row keeps the caller, the tool and the masked input of the request
      submitted under its id.  When an accepted task has ended, its run ended in a step of this run, and the
      row tells how; and if the audit of that run was saved, a stored audit row of its call names the very
      request. */
  lemma EndedRowsTell(capacity: nat, workers: nat, es: seq<Event>, id: nat)
    requires CanRun(Init(capacity, workers), es) && id in Run(Init(capacity, workers), es).tasks
    ensures var s0 := Init(capacity, workers); var s := Run(s0, es);
      && id < |s.requests| && IsFor(s.tasks[id], s.requests[id])
      && (s.tasks[id].status.Terminal() && id in s.accepted ==>
            && id in s.endings && EndsSoAlong(s0, es, id, s.endings[id])
            && Tells(s.tasks[id], s.endings[id])
            && AuditedFor(s, id))
  {
    var s0 := Init(capacity, workers);
    InitOk(capacity, workers);
    RunKeepsReports(s0, es);
    if id in Run(s0, es).endings {
      EndingIsAStep(s0, es, id);
    }
  }

  /** Request i is the one of the i-th submission. */
  function Submitted(es: seq<Event>): seq<Request> {
    if es == [] then []
    else (if es[0].Submit? then [es[0].req] else []) + Submitted(es[1..])
  }

  lemma {:induction false} RequestsAreSubmitted(s: State, es: seq<Event>)
    requires CanRun(s, es)
    ensures Run(s, es).requests == s.requests + Submitted(es)
    decreases |es|
  {
    if es == [] {
      assert s.requests + [] == s.requests;
    } else {
      var own := if es[0].Submit? then [es[0].req] else [];
      RequestsAreSubmitted(Apply(s, es[0]), es[1..]);
      assert Apply(s, es[0]).requests == s.requests + own;
      assert (s.requests + own) + Submitted(es[1..]) == s.requests + (own + Submitted(es[1..]));
    }
  }
}
