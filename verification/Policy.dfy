/** policy.Engine.Check (internal/policy/policy.go:88-128): the order of the tests, and what the decision
    says.  The URL test is an input. */
module PolicyEngine {
  import opened Wrappers
  import opened Masking
  import Store
  import opened Text
  import RateLimit
  import RateServer
  import Sql
  import SqlRules

  datatype Permission = ReadOnly | Sensitive | Admin | Other

  datatype Request = Request(userID: string, toolName: string, permission: Permission, input: Value)

  predicate AllowedPermission(userID: string, p: Permission) {
    match p
    case ReadOnly => true
    case Sensitive => userID == "admin" || userID == "system"
    case Admin => userID == "system"
    case Other => false
  }

  /** stringInput */
  function StringInput(input: Value, key: string): Option<string> {
    if input.Map? && key in input.fields && input.fields[key].Str? then Some(input.fields[key].text) else None
  }

  function SqlReason(r: Sql.Rejection): (reason: string)
    ensures reason != "" && reason != "allowed"
  {
    match r
    case SqlRequired => "sql is required"
    case CommentsNotAllowed => "sql comments are not allowed"
    case MultipleStatements => "multiple sql statements are not allowed"
    case DangerousStatement => "dangerous sql statement rejected"
    case OnlySelect => "only select queries are allowed"
    case CteWithoutSelect => "cte query must contain select"
    case BlockedTable => "blocked table access rejected"
    case LimitRequired => "sql limit is required"
  }

  function RateReason(r: RateLimit.Refusal): (reason: string)
    ensures reason != "" && reason != "allowed"
  {
    match r
    case Unavailable => "rate limit unavailable"
    case Exceeded => "rate limit exceeded"
  }

  /** What the URL test can refuse. */
  datatype UrlRejection = UrlRequired | InvalidUrl | SchemeNotAllowed | PrivateHost | NotAllowlisted

  function UrlReason(r: UrlRejection): (reason: string)
    ensures reason != "" && reason != "allowed"
  {
    match r
    case UrlRequired => "url is required"
    case InvalidUrl => "invalid url"
    case SchemeNotAllowed => "url scheme is not allowed"
    case PrivateHost => "private url host is not allowed"
    case NotAllowlisted => "url host is not allowlisted"
  }

  /** Who may use a tool: a sensitive one only "admin" and "system", an admin one only "system". */
  predicate MayUse(userID: string, p: Permission) {
    && p != Other
    && (p == Sensitive ==> userID in {"admin", "system"})
    && (p == Admin ==> userID in {"system"})
  }

  /** What an allowed request is: one the user may make, and whose query, if it has one, is safe. */
  predicate IsSafe(sql: Sql.Policy, req: Request) {
    && MayUse(req.userID, req.permission)
    && (match req.input
        case Map(fields) =>
          if "sql" in fields && fields["sql"].Str? then SqlRules.IsSafe(sql, fields["sql"].text)
          else req.toolName != "query_mysql_readonly"
        case _ => req.toolName != "query_mysql_readonly")
  }

  lemma PermissionIff(userID: string, p: Permission)
    ensures AllowedPermission(userID, p) <==> MayUse(userID, p)
  {}

  lemma QueryIff(sql: Sql.Policy, req: Request)
    ensures AllowedPermission(req.userID, req.permission)
            && Sql.CheckSQL(sql, req.toolName, StringInput(req.input, "sql")) == None
       <==> IsSafe(sql, req)
  {
    PermissionIff(req.userID, req.permission);
    SqlRules.WithoutQuery(sql, req.toolName);
    if req.input.Map? && "sql" in req.input.fields && req.input.fields["sql"].Str? {
      SqlRules.AcceptedIff(sql, req.toolName, req.input.fields["sql"].text);
    }
  }

  class Engine {
    const allowedTools: set<string>
    const limiter: RateServer.Limiter?
    const sql: Sql.Policy

    constructor (allowedTools: set<string>, limiter: RateServer.Limiter?, sql: Sql.Policy)
      ensures this.allowedTools == allowedTools && this.limiter == limiter && this.sql == sql
    {
      this.allowedTools := allowedTools;
      this.limiter := limiter;
      this.sql := sql;
    }

    /** The rate limiter is asked only about requests that pass the first two tests. */
    predicate ReachesLimiter(req: Request) {
      req.toolName in allowedTools && AllowedPermission(req.userID, req.permission)
    }

    /** The reason of the first test, in this order, that refuses. */
    function Reason(req: Request, limited: Option<RateLimit.Refusal>, url: Option<UrlRejection>): (reason: string)
      ensures reason != ""
      ensures reason == "allowed" <==>
        && ReachesLimiter(req)
        && limited == None
        && Sql.CheckSQL(sql, req.toolName, StringInput(req.input, "sql")) == None
        && url == None
    {
      if req.toolName !in allowedTools then "tool is not allowed"
      else if !AllowedPermission(req.userID, req.permission) then "permission denied"
      else if limited.Some? then RateReason(limited.value)
      else
        var rejection := Sql.CheckSQL(sql, req.toolName, StringInput(req.input, "sql"));
        if rejection.Some? then SqlReason(rejection.value)
        else if url.Some? then UrlReason(url.value)
        else "allowed"
    }

    /** The refusal of one request by an undisturbed limiter, from the counter of its own user and tool. */
    ghost function Refusal(req: Request, incr: Reply, expire: Reply): Option<RateLimit.Refusal>
      reads limiter
    {
      if limiter == null then None
      else RateLimit.RefusalOf(limiter.config, RateServer.View(limiter.state, RateServer.Key(req.userID, req.toolName)),
                               incr, expire)
    }

    /** checkRateLimit: without a limiter every call passes; with one, the counter of this user and tool
        decides, and is the only one that changes. */
    method CheckRateLimit(req: Request, incr: Reply, expire: Reply) returns (refusal: Option<RateLimit.Refusal>)
      requires limiter != null ==> limiter.Valid()
      requires incr.Valid() && expire.Valid()
      modifies if limiter == null then {} else {limiter}
      ensures refusal == old(Refusal(req, incr, expire))
      ensures limiter != null ==>
        && limiter.Valid()
        && RateServer.CallServed(limiter.config, old(limiter.state), limiter.state, req.userID, req.toolName,
                                 incr, expire)
    {
      if limiter == null {
        return None;
      }
      refusal := limiter.CheckRateLimit(req.userID, req.toolName, incr, expire);
    }

    method Check(request: Option<Request>, incr: Reply, expire: Reply, url: Option<UrlRejection>)
      returns (d: Store.Decision)
      requires request.Some? ==> request.value.input.Map?
      requires limiter != null ==> limiter.Valid()
      requires incr.Valid() && expire.Valid()
      modifies if limiter == null then {} else {limiter}
      ensures limiter != null ==> limiter.Valid()
      // every decision has a reason, and only an allowing one says so
      ensures d.reason != "" && (d.allowed <==> d.reason == "allowed")
      ensures d.reason ==
        if request == None then "missing policy request"
        else Reason(request.value, old(Refusal(request.value, incr, expire)), url)
      // what is allowed is safe
      ensures d.allowed ==> request.Some? && request.value.toolName in allowedTools && IsSafe(sql, request.value)
      // the tool is given the sanitized input
      ensures match request
        case None => d.sanitized == Map(map[]) && d.masks == []
        case Some(req) =>
          && d.sanitized == Sanitized(req.input)
          && (forall name :: name in d.masks <==> Reported(req.input, name))
      // the limiter sees one call of a request that gets that far, and nothing otherwise
      ensures limiter != null ==>
        if request.Some? && ReachesLimiter(request.value)
        then RateServer.CallServed(limiter.config, old(limiter.state), limiter.state,
                                   request.value.userID, request.value.toolName, incr, expire)
        else limiter.state == old(limiter.state)
    {
      if request == None {
        return Store.Decision(false, "missing policy request", Map(map[]), []);
      }
      var req := request.value;
      var sanitized, masks := SanitizeInput(req.input);
      if req.toolName !in allowedTools {
        return Store.Decision(false, "tool is not allowed", sanitized, masks);
      }
      if !AllowedPermission(req.userID, req.permission) {
        return Store.Decision(false, "permission denied", sanitized, masks);
      }
      var refusal := CheckRateLimit(req, incr, expire);
      if refusal.Some? {
        return Store.Decision(false, RateReason(refusal.value), sanitized, masks);
      }
      var rejection := Sql.CheckSQL(sql, req.toolName, StringInput(req.input, "sql"));
      if rejection.Some? {
        return Store.Decision(false, SqlReason(rejection.value), sanitized, masks);
      }
      if url.Some? {
        return Store.Decision(false, UrlReason(url.value), sanitized, masks);
      }
      QueryIff(sql, req);
      return Store.Decision(true, "allowed", sanitized, masks);
    }
  }

  /** The query that reaches the database is the query that was checked, and the one the rewriter makes of
      it would be accepted again: sanitizing the input does not touch the "sql" field. */
  lemma ExecutedQueryIsAllowed(p: Sql.Policy, toolName: string, input: Value, q: string, maxRows: int)
    requires StringInput(input, "sql") == Some(q)
    requires Sql.SpaceFree(p) && !Sql.BlocksSuffix(p, maxRows)
    requires Sql.CheckSQL(p, toolName, StringInput(input, "sql")) == None
    ensures StringInput(Sanitized(input), "sql") == Some(q)
    ensures Sql.CheckSQL(p, toolName, Some(Sql.EnforceLimit(q, maxRows))) == None
  {
    NotSensitive("sql");
    SanitizeKeepsField(input, "sql");
    Sql.RewritingStaysAllowed(p, toolName, q, maxRows);
  }

  /** The engine allows a request exactly if the tool is listed, the request is safe, and neither the limiter
      nor the URL test refuses. */
  lemma AllowedIff(e: Engine, req: Request, limited: Option<RateLimit.Refusal>, url: Option<UrlRejection>)
    ensures e.Reason(req, limited, url) == "allowed"
       <==> req.toolName in e.allowedTools && IsSafe(e.sql, req) && limited == None && url == None
  {
    QueryIff(e.sql, req);
  }

  /** The reasons of the tests before the query's: that of the first to refuse. */
  lemma FirstReasons(e: Engine, req: Request, limited: Option<RateLimit.Refusal>, url: Option<UrlRejection>)
    ensures req.toolName !in e.allowedTools ==> e.Reason(req, limited, url) == "tool is not allowed"
    ensures req.toolName in e.allowedTools && !MayUse(req.userID, req.permission) ==>
      e.Reason(req, limited, url) == "permission denied"
    ensures req.toolName in e.allowedTools && MayUse(req.userID, req.permission) ==>
      && (limited == Some(RateLimit.Unavailable) ==> e.Reason(req, limited, url) == "rate limit unavailable")
      && (limited == Some(RateLimit.Exceeded) ==> e.Reason(req, limited, url) == "rate limit exceeded")
  {
    PermissionIff(req.userID, req.permission);
  }

  /** When the query's test comes first to refuse, its reason is the one given. */
  lemma QueryReason(e: Engine, req: Request, q: string, url: Option<UrlRejection>, r: Sql.Rejection)
    requires req.toolName in e.allowedTools && MayUse(req.userID, req.permission)
    requires StringInput(req.input, "sql") == Some(q) && Sql.CheckSQL(e.sql, req.toolName, Some(q)) == Some(r)
    ensures e.Reason(req, None, url) == SqlReason(r)
  {
    PermissionIff(req.userID, req.permission);
  }

  /** The texts of the refusals of a query, each with what its text lacks first. */
  predicate Explains(p: Sql.Policy, t: string, reason: string) {
    || (reason == "sql is required" && t == "")
    || (reason == "sql comments are not allowed" && !SqlRules.NoComment(t))
    || (reason == "multiple sql statements are not allowed" && !SqlRules.OneStatement(t))
    || (reason == "dangerous sql statement rejected" && !SqlRules.NoKeyword(t))
    || (reason == "only select queries are allowed"
        && !SqlRules.BeginsWithSelect(t) && !SqlRules.BeginsWithWith(t))
    || (reason == "cte query must contain select" && SqlRules.BeginsWithWith(t) && !SqlRules.NamesSelect(t))
    || (reason == "blocked table access rejected" && !SqlRules.NoBlockedTable(p.blockedTables, t))
    || (reason == "sql limit is required" && p.requireLimit && !SqlRules.NamesLimit(t))
  }

  /** The reason given for a refused query names a rule that its text breaks. */
  lemma ReasonExplains(p: Sql.Policy, toolName: string, q: string)
    requires Sql.CheckSQL(p, toolName, Some(q)).Some?
    ensures Explains(p, TrimSpace(q), SqlReason(Sql.CheckSQL(p, toolName, Some(q)).value))
  {
    SqlRules.RefusedIff(p, toolName, q);
    match Sql.CheckSQL(p, toolName, Some(q)).value
    case SqlRequired =>
    case CommentsNotAllowed =>
    case MultipleStatements =>
    case DangerousStatement =>
    case OnlySelect =>
    case CteWithoutSelect =>
    case BlockedTable =>
    case LimitRequired =>
  }
}
