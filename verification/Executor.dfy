/** The tool pipeline, GatewayExecutor.Execute (internal/executor/executor.go:91-194), with the deferred
    audit (lines 107-114 and 283-296), the tool call (298-305) and its metrics (321-330).

    Registry lookup, schema validation, the policy's verdict, the tool's own behaviour and the store's
    answers are inputs; what the pipeline makes of them is proved. */
module Executor {
  import opened Wrappers
  import opened Masking
  import opened Store

  datatype Check = CheckFailed(error: string) | Checked(decision: Option<Decision>)

  /** What a tool may do; `deadline` says that its context had expired when it came back. */
  datatype ToolRun =
    | Panics(deadline: bool)
    | RunError(text: string, deadline: bool)
    | NilResult
    | Returned(success: bool, data: Value, error: string)

  datatype World = World(
    tool: Option<string>,
    invalid: Option<string>,
    check: Check,
    run: Value -> ToolRun,
    saveReject: Reply,
    saveRejectError: string,
    saveAudit: Reply,
    saveAuditError: string)

  // ---------- what is promised ----------

  predicate Rejected(w: World) {
    && w.tool.Some? && w.invalid == None && w.check.Checked?
    && (w.check.decision == None || !w.check.decision.value.allowed)
  }

  predicate Allowed(w: World) {
    && w.tool.Some? && w.invalid == None && w.check.Checked?
    && w.check.decision.Some? && w.check.decision.value.allowed
  }

  /** What executeTool makes of a panic. */
  function Recovered(run: ToolRun): ToolRun {
    match run
    case Panics(deadline) => RunError("tool panic recovered", deadline)
    case _ => run
  }

  /** What the tool does with the input it is given, the sanitized one. */
  function RunOf(w: World): ToolRun
    requires Allowed(w)
  {
    Recovered(w.run(w.check.decision.value.sanitized))
  }

  predicate Succeeds(w: World) {
    Allowed(w) && RunOf(w).Returned? && RunOf(w).success
  }

  /** A reject row is written for a rejection that gives a reason. */
  predicate WritesReject(w: World) {
    Rejected(w) && w.check.decision.Some? && w.check.decision.value.reason != ""
  }

  function DecisionOf(w: World): string {
    if Allowed(w) then "allowed" else if Rejected(w) then "rejected" else "not_checked"
  }

  /** The text of the error the caller sees when the tool was allowed and did not succeed. */
  function RunErrorText(run: ToolRun): string {
    match run
    case Panics(deadline) => if deadline then "tool timeout" else "tool panic recovered"
    case RunError(text, deadline) => if deadline then "tool timeout" else text
    case NilResult => "tool returned nil result"
    case Returned(_, _, error) => if error == "" then "tool failed" else error
  }

  /** The error of the response, "" for a success. */
  function ErrorOf(w: World): string {
    if w.tool == None then "tool not found"
    else if w.invalid.Some? then w.invalid.value
    else if w.check.CheckFailed? then "policy check failed"
    else if WritesReject(w) then
      if w.saveReject.ok then w.check.decision.value.reason else w.saveRejectError
    else if Rejected(w) then "policy rejected"
    else if Succeeds(w) then ""
    else RunErrorText(RunOf(w))
  }

  /** boundedErrorType */
  function ErrorClass(text: string): string {
    if text == "tool timeout" then "timeout"
    else if text == "tool panic recovered" then "panic"
    else if text == "tool not found" then "not_found"
    else "tool_error"
  }

  /** What a call adds to the ToolCalls and ToolErrors counters. */
  function CallsCounted(w: World): multiset<(string, string)> {
    if Allowed(w) then multiset{(w.tool.value, StatusOf(Succeeds(w)))} else multiset{}
  }

  function ErrorsCounted(w: World): multiset<(string, string)> {
    if Allowed(w) && !Succeeds(w) && ErrorOf(w) != "" then multiset{(w.tool.value, ErrorClass(ErrorOf(w)))}
    else multiset{}
  }

  /** The error returned beside the response, before the audit is saved. */
  function Failure(w: World): Option<string> {
    if Succeeds(w) then None
    else if w.tool.Some? && w.invalid == None && w.check.CheckFailed? then Some(w.check.error)
    else Some(ErrorOf(w))
  }

  /** The error returned when the audit has been saved, or has not. */
  function AfterAudit(prior: Option<string>, w: World): Option<string> {
    if w.saveAudit.ok then prior
    else if prior.Some? then Some(prior.value + "; save audit: " + w.saveAuditError)
    else Some("save audit: " + w.saveAuditError)
  }

  function StatusOf(success: bool): string {
    if success then "success" else "failed"
  }

  /** The sanitized input a call's audit row shows: the decision's if there is one to show, else the masked
      input. */
  function AuditSanitized(req: Request, w: World): Value {
    if Allowed(w) || WritesReject(w) then w.check.decision.value.sanitized
    else MaskSensitive(req.input, [])
  }

  function AuditRow(callID: nat, req: Request, w: World): Audit {
    Audit(callID, req.userID, req.toolName, StatusOf(Succeeds(w)), MaskSensitive(req.input, []),
          AuditSanitized(req, w), ErrorOf(w))
  }

  /** The reject row of a call, if it has one. */
  function RejectOf(req: Request, w: World): seq<Reject> {
    if WritesReject(w)
    then [Reject(req.userID, req.toolName, w.check.decision.value.reason, w.check.decision.value.sanitized)]
    else []
  }

  /** What the caller and the ToolErrors counter are told, from what the tool itself did. */
  lemma ErrorOfRun(w: World, tool: string, run: ToolRun)
    requires Allowed(w) && w.tool == Some(tool) && run == w.run(w.check.decision.value.sanitized)
    ensures (run.Panics? || run.RunError?) && run.deadline ==>
      ErrorOf(w) == "tool timeout" && ErrorsCounted(w) == multiset{(tool, "timeout")}
    ensures run.Panics? && !run.deadline ==>
      ErrorOf(w) == "tool panic recovered" && ErrorsCounted(w) == multiset{(tool, "panic")}
    ensures run.RunError? && !run.deadline ==> ErrorOf(w) == run.text
    ensures run.NilResult? ==>
      ErrorOf(w) == "tool returned nil result" && ErrorsCounted(w) == multiset{(tool, "tool_error")}
    ensures run.Returned? && run.success ==> ErrorOf(w) == "" && ErrorsCounted(w) == multiset{}
    ensures run.Returned? && !run.success && run.error == "" ==>
      ErrorOf(w) == "tool failed" && ErrorsCounted(w) == multiset{(tool, "tool_error")}
    ensures run.Returned? && !run.success && run.error != "" ==> ErrorOf(w) == run.error
  {}

  /** A run is counted as a success exactly if the tool returned one. */
  lemma CountOfRun(w: World, tool: string, run: ToolRun)
    requires Allowed(w) && w.tool == Some(tool) && run == w.run(w.check.decision.value.sanitized)
    ensures CallsCounted(w) == multiset{(tool, if run.Returned? && run.success then "success" else "failed")}
  {}

  /** An allowed call's error is "tool timeout" exactly if the tool came back without a result after its
      deadline, or says so itself. */
  lemma TimeoutIff(w: World, run: ToolRun)
    requires Allowed(w) && run == w.run(w.check.decision.value.sanitized)
    ensures ErrorOf(w) == "tool timeout" <==>
      || ((run.Panics? || run.RunError?) && run.deadline)
      || (run.RunError? && run.text == "tool timeout")
      || (run.Returned? && !run.success && run.error == "tool timeout")
  {}

  // ---------- the pipeline ----------

  class GatewayExecutor {
    const store: TaskStore
    /** The next call id: repository.NewID gives fresh ones. */
    var nextCall: nat
    /** The ToolCalls counter, by tool and status. */
    var toolCalls: multiset<(string, string)>
    /** The ToolErrors counter, by tool and class of error. */
    var toolErrors: multiset<(string, string)>
    ghost var toolRuns: nat

    constructor (store: TaskStore)
      ensures this.store == store && nextCall == 0 && toolRuns == 0
      ensures toolCalls == multiset{} && toolErrors == multiset{}
    {
      this.store := store;
      nextCall := 0;
      toolCalls := multiset{};
      toolErrors := multiset{};
      toolRuns := 0;
    }

    /** executeTool: a panic becomes an error. */
    method ExecuteTool(w: World, input: Value) returns (run: ToolRun)
      modifies this`toolRuns
      ensures run == Recovered(w.run(input)) && !run.Panics? && toolRuns == old(toolRuns) + 1
    {
      toolRuns := toolRuns + 1;
      run := w.run(input);
      if run.Panics? {
        run := RunError("tool panic recovered", run.deadline);
      }
    }

    method RecordMetrics(toolName: string, status: string, errType: string)
      modifies this`toolCalls, this`toolErrors
      ensures toolCalls == old(toolCalls) + multiset{(toolName, status)}
      ensures toolErrors ==
        old(toolErrors) + if errType == "" then multiset{} else multiset{(toolName, ErrorClass(errType))}
    {
      toolCalls := toolCalls + multiset{(toolName, status)};
      if errType != "" {
        toolErrors := toolErrors + multiset{(toolName, ErrorClass(errType))};
      }
    }

    method SaveAudit(audit: Audit, sanitized: Option<Value>, prior: Option<string>, w: World)
      returns (err: Option<string>)
      requires w.saveAudit.Valid()
      modifies store`calls
      ensures store.calls ==
        old(store.calls)
        + if w.saveAudit.applied
          then [audit.(sanitized := if sanitized.Some? then sanitized.value else audit.input)]
          else []
      ensures err == AfterAudit(prior, w)
    {
      var row := audit.(sanitized := if sanitized.Some? then sanitized.value else audit.input);
      var ok := store.SaveToolAudit(row, w.saveAudit);
      if !ok {
        return Some(match prior
                    case Some(text) => text + "; save audit: " + w.saveAuditError
                    case None => "save audit: " + w.saveAuditError);
      }
      return prior;
    }

    /** Execute up to its deferred audit. */
    method Attempt(req: Request, callID: nat, w: World)
      returns (resp: Response, audit: Audit, sanitized: Option<Value>, err: Option<string>)
      requires w.saveReject.Valid()
      modifies this`toolCalls, this`toolErrors, this`toolRuns, store`rejects
      ensures resp.callID == callID && resp.toolName == req.toolName && resp.decision == DecisionOf(w)
      ensures resp.success == Succeeds(w) && resp.error == ErrorOf(w) && err == Failure(w)
      ensures resp.data ==
        if Succeeds(w) then Some(MaskSensitive(RunOf(w).data, w.check.decision.value.masks)) else None
      ensures audit == Audit(callID, req.userID, req.toolName, StatusOf(resp.success),
                             MaskSensitive(req.input, []), audit.sanitized, "")
      ensures AuditSanitized(req, w) == if sanitized.Some? then sanitized.value else audit.input
      ensures store.rejects == old(store.rejects) + if w.saveReject.applied then RejectOf(req, w) else []
      // the tool runs once if the policy allows it, and is counted once, under its outcome
      ensures toolRuns == old(toolRuns) + if Allowed(w) then 1 else 0
      ensures toolCalls == old(toolCalls) + CallsCounted(w)
      ensures toolErrors == old(toolErrors) + ErrorsCounted(w)
    {
      resp := Response(callID, req.toolName, false, None, "", "not_checked");
      audit := Audit(callID, req.userID, req.toolName, "failed", MaskSensitive(req.input, []), Map(map[]), "");
      sanitized := None;
      if w.tool == None {
        resp := resp.(error := "tool not found");
        err := Some(resp.error);
        return;
      }
      if w.invalid.Some? {
        resp := resp.(error := w.invalid.value);
        err := w.invalid;
        return;
      }
      if w.check.CheckFailed? {
        resp := resp.(error := "policy check failed");
        err := Some(w.check.error);
        return;
      }
      var decision := w.check.decision;
      if decision == None || !decision.value.allowed {
        resp := resp.(decision := "rejected");
        var reason := "policy rejected";
        if decision.Some? && decision.value.reason != "" {
          reason := decision.value.reason;
          sanitized := Some(decision.value.sanitized);
          var ok := store.SavePolicyReject(
            Reject(req.userID, req.toolName, decision.value.reason, decision.value.sanitized), w.saveReject);
          if !ok {
            resp := resp.(error := w.saveRejectError);
            err := Some(w.saveRejectError);
            return;
          }
        }
        resp := resp.(error := reason);
        err := Some(reason);
        return;
      }
      resp := resp.(decision := "allowed");
      sanitized := Some(decision.value.sanitized);
      var result := ExecuteTool(w, decision.value.sanitized);
      if result.RunError? {
        resp := resp.(error := result.text);
        if result.deadline {
          resp := resp.(error := "tool timeout");
        }
        RecordMetrics(w.tool.value, "failed", resp.error);
        err := Some(resp.error);
        return;
      }
      if result.NilResult? {
        resp := resp.(error := "tool returned nil result");
        RecordMetrics(w.tool.value, "failed", resp.error);
        err := Some(resp.error);
        return;
      }
      resp := resp.(success := result.success);
      if result.success {
        audit := audit.(status := "success");
        resp := resp.(data := Some(MaskSensitive(result.data, decision.value.masks)));
        RecordMetrics(w.tool.value, "success", "");
        err := None;
        return;
      }
      resp := resp.(error := if result.error == "" then "tool failed" else result.error);
      RecordMetrics(w.tool.value, "failed", resp.error);
      err := Some(resp.error);
    }

    method Execute(request: Option<Request>, w: World) returns (resp: Option<Response>, err: Option<string>)
      requires w.saveReject.Valid() && w.saveAudit.Valid()
      modifies this, store`calls, store`rejects
      ensures request == None ==>
        resp == None && err.Some? && nextCall == old(nextCall) && toolCalls == old(toolCalls)
        && toolErrors == old(toolErrors) && toolRuns == old(toolRuns) && store.calls == old(store.calls) && store.rejects == old(store.rejects)
      ensures request.Some? ==>
        && resp.Some?
        && nextCall == old(nextCall) + 1 && resp.value.callID == old(nextCall)
        && Entered(request.value, w, resp.value, err, old(Book()), Book())
    {
      if request == None {
        return None, Some("missing execute request");
      }
      var callID := nextCall;
      nextCall := nextCall + 1;
      var r, audit, sanitized, prior := Attempt(request.value, callID, w);
      if r.error != "" {
        audit := audit.(errorMessage := r.error);
      }
      err := SaveAudit(audit, sanitized, prior, w);
      resp := Some(r);
    }

    /** The gateway's books. */
    ghost function Book(): Ledger
      reads this, store
    {
      Ledger(store.calls, store.rejects, toolRuns, toolCalls, toolErrors)
    }
  }

  // ---------- the ledger ----------

  datatype Ledger = Ledger(
    calls: seq<Audit>,
    rejects: seq<Reject>,
    toolRuns: nat,
    toolCalls: multiset<(string, string)>,
    toolErrors: multiset<(string, string)>)

  /** What one call leaves in the books, whatever the store answers. */
  predicate Entered(req: Request, w: World, resp: Response, err: Option<string>, before: Ledger, after: Ledger) {
    && resp.decision == DecisionOf(w)
    && resp.success == Succeeds(w)
    && resp.error == ErrorOf(w)
    && resp.data == (if Succeeds(w) then Some(MaskSensitive(RunOf(w).data, w.check.decision.value.masks)) else None)
    && err == AfterAudit(Failure(w), w)
    && after.calls ==
       before.calls
       + (if w.saveAudit.applied then [AuditRow(resp.callID, req, w)] else [])
    && after.rejects == before.rejects + (if w.saveReject.applied then RejectOf(req, w) else [])
    && after.toolRuns == before.toolRuns + (if Allowed(w) then 1 else 0)
    && after.toolCalls == before.toolCalls + CallsCounted(w)
    && after.toolErrors == before.toolErrors + ErrorsCounted(w)
  }

  datatype Call = Call(req: Request, w: World, resp: Response, err: Option<string>)

  predicate NoStoreFault(w: World) {
    w.saveReject.ok && w.saveReject.applied && w.saveAudit.ok && w.saveAudit.applied
  }

  /** A rejection comes with a reason, as Engine.Check's do (`Gateway.Serve`). */
  predicate Reasoned(w: World) {
    Rejected(w) ==> WritesReject(w)
  }

  /** A run of calls: books[i] before call i, books[i + 1] after it. */
  predicate IsRun(calls: seq<Call>, books: seq<Ledger>) {
    && |books| == |calls| + 1
    && forall i :: 0 <= i < |calls| ==>
         Entered(calls[i].req, calls[i].w, calls[i].resp, calls[i].err, books[i], books[i + 1])
  }

  /** The reject rows of a run. */
  function RejectsOf(calls: seq<Call>): seq<Reject> {
    if calls == [] then []
    else RejectsOf(calls[..|calls| - 1]) + RejectOf(calls[|calls| - 1].req, calls[|calls| - 1].w)
  }

  function CountDecided(calls: seq<Call>, decision: string): nat {
    if calls == [] then 0
    else
      CountDecided(calls[..|calls| - 1], decision)
      + if calls[|calls| - 1].resp.decision == decision then 1 else 0
  }

  /** The rows of a run: one for each call, in order, with its id and its outcome. */
  predicate RowsOf(calls: seq<Call>, before: seq<Audit>, after: seq<Audit>) {
    && |after| == |before| + |calls|
    && after[..|before|] == before
    && forall i :: 0 <= i < |calls| ==> RowOf(calls[i], after[|before| + i])
  }

  predicate RowOf(c: Call, row: Audit) {
    && row.callID == c.resp.callID
    && (row.status == "success" <==> c.resp.success)
    && (row.status == "success" <==> c.err == None)
    && row.errorMessage == c.resp.error
    && row.userID == c.req.userID && row.toolName == c.req.toolName && row.input == MaskSensitive(c.req.input, [])
  }

  lemma {:induction false} RowsBalance(calls: seq<Call>, books: seq<Ledger>)
    requires IsRun(calls, books)
    requires forall i :: 0 <= i < |calls| ==> NoStoreFault(calls[i].w)
    ensures RowsOf(calls, books[0].calls, books[|calls|].calls)
  {
    if calls != [] {
      var n := |calls| - 1;
      RowsBalance(calls[..n], books[..n + 1]);
      EnteredRow(calls[n], books[n], books[n + 1]);
      var before, middle, after := books[0].calls, books[n].calls, books[n + 1].calls;
      assert RowsOf(calls[..n], before, middle);
      forall i | 0 <= i < |calls| ensures RowOf(calls[i], after[|before| + i]) {
        assert i < n ==> calls[i] == calls[..n][i] && after[|before| + i] == middle[|before| + i];
      }
    }
  }

  lemma EnteredRow(c: Call, before: Ledger, after: Ledger)
    requires Entered(c.req, c.w, c.resp, c.err, before, after) && NoStoreFault(c.w)
    ensures |after.calls| == |before.calls| + 1 && after.calls[..|before.calls|] == before.calls
    ensures RowOf(c, after.calls[|before.calls|])
  {}

  lemma {:induction false} CountsBalance(calls: seq<Call>, books: seq<Ledger>)
    requires IsRun(calls, books)
    requires forall i :: 0 <= i < |calls| ==> NoStoreFault(calls[i].w) && Reasoned(calls[i].w)
    ensures var first, last := books[0], books[|calls|];
      && last.rejects == first.rejects + RejectsOf(calls)
      && |RejectsOf(calls)| == CountDecided(calls, "rejected")
      && last.toolRuns == first.toolRuns + CountDecided(calls, "allowed")
      && |last.toolCalls| == |first.toolCalls| + CountDecided(calls, "allowed")
  {
    if calls != [] {
      var n := |calls| - 1;
      CountsBalance(calls[..n], books[..n + 1]);
      EnteredCounts(calls[n], books[n], books[n + 1]);
    }
  }

  lemma EnteredCounts(c: Call, before: Ledger, after: Ledger)
    requires Entered(c.req, c.w, c.resp, c.err, before, after) && NoStoreFault(c.w) && Reasoned(c.w)
    ensures after.rejects == before.rejects + RejectOf(c.req, c.w)
    ensures |RejectOf(c.req, c.w)| == if c.resp.decision == "rejected" then 1 else 0
    ensures after.toolRuns == before.toolRuns + if c.resp.decision == "allowed" then 1 else 0
    ensures |after.toolCalls| == |before.toolCalls| + if c.resp.decision == "allowed" then 1 else 0
  {}

  /** Over any run on a store that does not fail: one audit row for each call, in order, with its id and
      its outcome; one reject row for each rejected call; as many tool runs, and as many counted tool calls,
      as calls decided "allowed". */
  lemma LedgerBalances(calls: seq<Call>, books: seq<Ledger>)
    requires IsRun(calls, books)
    requires forall i :: 0 <= i < |calls| ==> NoStoreFault(calls[i].w) && Reasoned(calls[i].w)
    ensures var first, last := books[0], books[|calls|];
      && RowsOf(calls, first.calls, last.calls)
      && last.rejects == first.rejects + RejectsOf(calls)
      && |RejectsOf(calls)| == CountDecided(calls, "rejected")
      && last.toolRuns == first.toolRuns + CountDecided(calls, "allowed")
      && |last.toolCalls| == |first.toolCalls| + CountDecided(calls, "allowed")
  {
    RowsBalance(calls, books);
    CountsBalance(calls, books);
  }

  /** No audit row shows an unmasked sensitive field as the call's input; its sanitized input does exactly
      when the request carries one inside a list. */
  lemma AuditShowsNothing(req: Request, w: World)
    requires Allowed(w) || WritesReject(w) ==> w.check.decision.value.sanitized == Sanitized(req.input)
    ensures !Exposed(MaskSensitive(req.input, []))
    ensures Exposed(AuditSanitized(req, w)) <==> (Allowed(w) || WritesReject(w)) && ExposedInList(req.input)
  {
    ExposedAfter(req.input);
  }
}
