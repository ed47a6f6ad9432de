/** Execute on a request, with the policy engine and the tool it really meets
    (internal/executor/executor.go:119-184): the verdict is the engine's, and the tool is given the input the
    engine sanitized. */
module Gateway {
  import opened Wrappers
  import opened Masking
  import opened Store
  import opened Executor
  import PolicyEngine
  import RateServer
  import Sql

  /** What the registry holds under a tool's name. */
  datatype Tool = Tool(name: string, permission: PolicyEngine.Permission, run: Value -> ToolRun)

  /** How the store answers during one call. */
  datatype StoreReplies = StoreReplies(reject: Reply, rejectError: string, audit: Reply, auditError: string)
  {
    predicate Valid() { reject.Valid() && audit.Valid() }
  }

  function PolicyRequest(req: Request, tool: Tool): PolicyEngine.Request {
    PolicyEngine.Request(req.userID, req.toolName, tool.permission, req.input)
  }

  /** What the tool makes of the request. */
  function Outcome(req: Request, tool: Tool): ToolRun {
    Recovered(tool.run(Sanitized(req.input)))
  }

  method Serve(executor: GatewayExecutor, engine: PolicyEngine.Engine, req: Request, found: Option<Tool>,
               invalid: Option<string>, url: Option<PolicyEngine.UrlRejection>, incr: Reply, expire: Reply,
               replies: StoreReplies)
    returns (resp: Response, err: Option<string>, w: World)
    requires req.input.Map? && replies.Valid() && incr.Valid() && expire.Valid()
    requires engine.limiter != null ==> engine.limiter.Valid()
    modifies executor, executor.store`calls, executor.store`rejects
    modifies if engine.limiter == null then {} else {engine.limiter}
    ensures engine.limiter != null ==> engine.limiter.Valid()
    ensures resp.callID == old(executor.nextCall) && executor.nextCall == old(executor.nextCall) + 1
    ensures Entered(req, w, resp, err, old(executor.Book()), executor.Book()) && Reasoned(w)
    // the call is allowed exactly if there is such a tool, its input is valid, and the engine allows it
    ensures Allowed(w) <==>
      && found.Some? && invalid == None
      && engine.Reason(PolicyRequest(req, found.value), old(engine.Refusal(PolicyRequest(req, found.value), incr, expire)), url)
         == "allowed"
    // the tool works on the sanitized input, and its output is masked, as if nothing had been reported
    ensures resp.success <==> Allowed(w) && Outcome(req, found.value).Returned? && Outcome(req, found.value).success
    ensures resp.success ==> resp.data == Some(MaskSensitive(Outcome(req, found.value).data, []))
    ensures Allowed(w) && !resp.success ==> resp.error == RunErrorText(Outcome(req, found.value))
    // what is allowed is safe, and the query found safe is the query the tool is given
    ensures Allowed(w) ==>
      && req.toolName in engine.allowedTools
      && PolicyEngine.IsSafe(engine.sql, PolicyRequest(req, found.value))
      && PolicyEngine.IsSafe(engine.sql, PolicyRequest(req.(input := Sanitized(req.input)), found.value))
    // what the audit row shows
    ensures Allowed(w) || WritesReject(w) ==> w.check.decision.value.sanitized == Sanitized(req.input)
  {
    var check := Checked(None);
    if found.Some? && invalid == None {
      var decision := engine.Check(Some(PolicyRequest(req, found.value)), incr, expire, url);
      check := Checked(Some(decision));
      forall data: Value ensures MaskSensitive(data, decision.masks) == MaskSensitive(data, []) {
        ReportedMasksAddNothing(req.input, decision.masks, data);
      }
      SafeStaysSafe(engine.sql, PolicyRequest(req, found.value));
    }
    w := World(if found.Some? then Some(found.value.name) else None, invalid, check,
               if found.Some? then found.value.run else _ => NilResult,
               replies.reject, replies.rejectError, replies.audit, replies.auditError);
    var r;
    r, err := executor.Execute(Some(req), w);
    resp := r.value;
  }

  /** Sanitizing leaves the field "sql" as it is, and with it the verdict on it. */
  lemma SafeStaysSafe(sql: Sql.Policy, req: PolicyEngine.Request)
    requires req.input.Map?
    ensures PolicyEngine.StringInput(Sanitized(req.input), "sql") == PolicyEngine.StringInput(req.input, "sql")
    ensures PolicyEngine.IsSafe(sql, req.(input := Sanitized(req.input))) <==> PolicyEngine.IsSafe(sql, req)
  {
    NotSensitive("sql");
  }
}
