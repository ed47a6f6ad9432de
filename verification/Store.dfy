/** The rows the gateway stores (internal/model/model.go:25-79) and the store that keeps them
    (internal/repository/memory.go:77-182).

    A store call of the memory store succeeds; one of the MySQL store may fail, and a call that failed may
    still have taken effect.  `Reply` says which of these happens. */
module Store {
  import opened Wrappers
  import opened Masking

  datatype Audit = Audit(
    callID: nat,
    userID: string,
    toolName: string,
    status: string,
    input: Value,
    sanitized: Value,
    errorMessage: string)

  /** executor.ExecuteRequest and policy.PolicyDecision: what a call is asked to do, and whether it may. */
  datatype Request = Request(userID: string, toolName: string, input: Value)

  datatype Decision = Decision(allowed: bool, reason: string, sanitized: Value, masks: seq<string>)

  datatype Reject = Reject(userID: string, toolName: string, reason: string, input: Value)

  datatype Response = Response(
    callID: nat,
    toolName: string,
    success: bool,
    data: Option<Value>,
    error: string,
    decision: string)

  datatype Status = Pending | Running | Success | Failed | TimedOut {
    predicate Terminal() { Success? || Failed? || TimedOut? }
  }

  datatype Task = Task(
    taskID: nat,
    userID: string,
    toolName: string,
    status: Status,
    input: Value,
    result: Option<Response>,
    errorMessage: string,
    finishedAt: Option<int>)

  /** A write of the row `task`, with or without effect. */
  function Put(tasks: map<nat, Task>, task: Task, reply: Reply): map<nat, Task> {
    if reply.applied then tasks[task.taskID := task] else tasks
  }

  class TaskStore {
    var tasks: map<nat, Task>
    var calls: seq<Audit>
    var rejects: seq<Reject>

    constructor ()
      ensures tasks == map[] && calls == [] && rejects == []
    {
      tasks, calls, rejects := map[], [], [];
    }

    method CreateAsyncTask(task: Task, reply: Reply) returns (ok: bool)
      requires reply.Valid()
      modifies this`tasks
      ensures ok == reply.ok && tasks == Put(old(tasks), task, reply)
    {
      if reply.applied {
        tasks := tasks[task.taskID := task];
      }
      ok := reply.ok;
    }

    method UpdateAsyncTask(task: Task, reply: Reply) returns (ok: bool)
      requires reply.Valid()
      modifies this`tasks
      ensures ok == reply.ok && tasks == Put(old(tasks), task, reply)
    {
      if reply.applied {
        tasks := tasks[task.taskID := task];
      }
      ok := reply.ok;
    }

    /** A copy of the row, or None when there is no such row or the store fails. */
    method GetAsyncTask(taskID: nat, ok: bool) returns (task: Option<Task>)
      ensures task == if ok && taskID in tasks then Some(tasks[taskID]) else None
    {
      if !ok || taskID !in tasks {
        return None;
      }
      return Some(tasks[taskID]);
    }

    method SaveToolAudit(a: Audit, reply: Reply) returns (ok: bool)
      requires reply.Valid()
      modifies this`calls
      ensures ok == reply.ok && calls == if reply.applied then old(calls) + [a] else old(calls)
    {
      if reply.applied {
        calls := calls + [a];
      }
      ok := reply.ok;
    }

    method SavePolicyReject(r: Reject, reply: Reply) returns (ok: bool)
      requires reply.Valid()
      modifies this`rejects
      ensures ok == reply.ok && rejects == if reply.applied then old(rejects) + [r] else old(rejects)
    {
      if reply.applied {
        rejects := rejects + [r];
      }
      ok := reply.ok;
    }
  }

  // ---------- pages ----------

  function PageLimit(limit: int): (n: nat)
    ensures 1 <= n <= 100 && (n == limit || n == 20) && (1 <= limit <= 100 ==> n == limit)
  {
    if limit <= 0 || limit > 100 then 20 else limit
  }

  /** page: at most PageLimit(limit) rows from `offset` on. */
  function Page<T>(rows: seq<T>, limit: int, offset: int): seq<T> {
    var from := if offset < 0 then 0 else offset;
    if from >= |rows| then []
    else
      var end := from + PageLimit(limit);
      rows[from..if end > |rows| then |rows| else end]
  }

  /** What is on a page: rows without a gap from the offset on, a negative one counting as 0, as many as the
      limit asks for or as there are left; a limit outside 1 to 100 counts as 20. */
  lemma PageIs<T>(rows: seq<T>, limit: int, offset: int)
    ensures var page := Page(rows, limit, offset); var from := if offset < 0 then 0 else offset;
      var most := if 1 <= limit <= 100 then limit else 20; var left := |rows| - from;
      && |page| == (if left <= 0 then 0 else if left < most then left else most)
      && forall k :: 0 <= k < |page| ==> page[k] == rows[from + k]
  {}

  /** The offset of page number `n`. */
  function Offset(limit: int, n: nat): nat {
    if n == 0 then 0 else Offset(limit, n - 1) + PageLimit(limit)
  }

  /** The first `n` pages, each asked for at the offset where the one before ended. */
  function Pages<T>(rows: seq<T>, limit: int, n: nat): seq<T> {
    if n == 0 then [] else Pages(rows, limit, n - 1) + Page(rows, limit, Offset(limit, n - 1))
  }

  function Upto<T>(rows: seq<T>, n: nat): seq<T> {
    rows[..if n > |rows| then |rows| else n]
  }

  lemma PageExtends<T>(rows: seq<T>, limit: int, from: nat)
    ensures Upto(rows, from) + Page(rows, limit, from) == Upto(rows, from + PageLimit(limit))
  {}

  /** Paging through a list shows each row once and in order. */
  lemma {:induction false} PagesTile<T>(rows: seq<T>, limit: int, n: nat)
    ensures Pages(rows, limit, n) == Upto(rows, Offset(limit, n))
  {
    if n > 0 {
      PagesTile(rows, limit, n - 1);
      PageExtends(rows, limit, Offset(limit, n - 1));
    }
  }
}
