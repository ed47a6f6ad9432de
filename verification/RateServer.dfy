/** The limiter's server: one counter for each (user, tool) key (internal/repository/redis.go:29-55,
    internal/policy/policy.go:111-128).  The commands of all users interleave on one server; seen from one
    key, what happens is a run of `RateLimit`, whatever happens under the other keys. */
module RateServer {
  import opened Wrappers
  import opened Text
  import RateLimit

  // ---------- keys ----------

  const PREFIX := "agent:ratelimit:user:"
  const INFIX := ":tool:"

  function User(user: string): string {
    if user == "" then "guest" else user
  }

  /** RateLimitKey */
  function Key(user: string, tool: string): string {
    PREFIX + User(user) + INFIX + tool
  }

  /** Two different pairs share a counter. */
  predicate Shares(user: string, tool: string, user': string, tool': string) {
    Key(user, tool) == Key(user', tool') && !(User(user) == User(user') && tool == tool')
  }

  lemma KeyEnds(user: string, tool: string)
    ensures var key := Key(user, tool); var n := |PREFIX| + |User(user)|;
      && |key| == n + |INFIX| + |tool|
      && key[..n] == PREFIX + User(user) && key[n..] == INFIX + tool
  {}

  lemma SharedTail(user: string, tool: string, user': string, tool': string)
    requires Shares(user, tool, user', tool') && |tool'| <= |tool|
    ensures EndsWith(":" + tool, INFIX + tool')
  {
    var key := Key(user, tool);
    KeyEnds(user, tool);
    KeyEnds(user', tool');
    SameUser(user, tool, user', tool');
    var n, n' := |PREFIX| + |User(user)|, |PREFIX| + |User(user')|;
    var d := n' - n;
    assert key[n'] == (INFIX + tool')[0] == ':';
    assert key[n'] == (INFIX + tool)[d];
    assert d >= 5;
    assert ":" + tool == (INFIX + tool)[5..];
    assert (INFIX + tool)[5..][d - 5..] == key[n'..];
  }

  /** Under one key, tools with names of one length are the same tool, of one user. */
  lemma SameUser(user: string, tool: string, user': string, tool': string)
    ensures Key(user, tool) == Key(user', tool') && |tool| == |tool'| ==> User(user) == User(user') && tool == tool'
  {
    KeyEnds(user, tool);
    KeyEnds(user', tool');
    assert User(user) == (PREFIX + User(user))[|PREFIX|..];
    assert User(user') == (PREFIX + User(user'))[|PREFIX|..];
    assert tool == (INFIX + tool)[|INFIX|..] && tool' == (INFIX + tool')[|INFIX|..];
  }

  lemma Regroup(a: string, b: string, c: string, d: string)
    ensures a + b + c + d == a + (b + c) + d == a + (b + (c + d))
  {}

  lemma TailIsShared(tool: string, tool': string) returns (user: string, user': string)
    requires EndsWith(":" + tool, INFIX + tool')
    ensures Shares(user, tool, user', tool')
  {
    var middle := (":" + tool)[..|tool| + 1 - |INFIX + tool'|];
    assert ":" + tool == middle + (INFIX + tool');
    user, user' := "a", "a:tool" + middle;
    assert "a" + INFIX == "a:tool" + ":";
    Regroup(PREFIX, "a", INFIX, tool);
    Regroup(PREFIX, "a:tool", ":", tool);
    Regroup(PREFIX, "a:tool", middle, INFIX + tool');
    Regroup(PREFIX + "a:tool", middle, INFIX, tool');
    Regroup(PREFIX, "a:tool", middle, INFIX);
    assert Key(user', tool') == PREFIX + ("a:tool" + middle) + INFIX + tool';
    assert |user'| > |user|;
  }

  /** Some users make two tools share a counter exactly when one tool's name, after a colon, ends in
      ":tool:" and the other's: a test on the registered names alone. */
  lemma SharedKeyIff(tool: string, tool': string)
    ensures (exists user, user' :: Shares(user, tool, user', tool'))
       <==> EndsWith(":" + tool, INFIX + tool') || EndsWith(":" + tool', INFIX + tool)
  {
    forall user, user' | Shares(user, tool, user', tool')
      ensures EndsWith(":" + tool, INFIX + tool') || EndsWith(":" + tool', INFIX + tool)
    {
      if |tool'| <= |tool| {
        SharedTail(user, tool, user', tool');
      } else {
        SharedTail(user', tool', user, tool);
      }
    }
    if EndsWith(":" + tool, INFIX + tool') {
      var user, user' := TailIsShared(tool, tool');
    } else if EndsWith(":" + tool', INFIX + tool) {
      var user', user := TailIsShared(tool', tool);
      assert Shares(user, tool, user', tool');
    }
  }

  lemma NoColonNoTail(tool: string, tool': string)
    requires ':' !in tool
    ensures !EndsWith(":" + tool, INFIX + tool')
  {
    var t := ":" + tool;
    assert forall i :: 0 < i < |t| ==> t[i] != ':';
    assert (INFIX + tool')[5] == ':';
  }

  /** Tools without a colon in their name: two (user, tool) pairs share a counter only if they are the same
      tool and the same user, the empty user being "guest"; whatever the user's name contains. */
  lemma KeyInjective(user: string, tool: string, user': string, tool': string)
    requires ':' !in tool && ':' !in tool'
    ensures Key(user, tool) == Key(user', tool') <==> User(user) == User(user') && tool == tool'
  {
    NoColonNoTail(tool, tool');
    NoColonNoTail(tool', tool);
    SharedKeyIff(tool, tool');
    assert !Shares(user, tool, user', tool');
  }

  /** With a colon in the tool's name two different pairs can share a counter. */
  lemma ColonSharesKey()
    ensures Key("a", "b:tool:c") == Key("a:tool:b", "c")
  {
    assert Key("a", "b:tool:c") == PREFIX + "a:tool:b:tool:c";
    assert Key("a:tool:b", "c") == PREFIX + "a:tool:b:tool:c";
  }

  /** Two users of one tool are counted together only if they are the same, or both are the guest, who may
      also be called nothing. */
  lemma GuestIff(user: string, user': string)
    ensures User(user) == User(user') <==> user == user' || (user in {"", "guest"} && user' in {"", "guest"})
  {}

  // ---------- the server ----------

  /** What the server knows of one key: its counter, and when its incarnations began. */
  datatype Track = Track(counter: RateLimit.Counter, births: seq<int>)

  datatype Request = Request(user: string, tool: string, call: RateLimit.Call)

  datatype Server = Server(now: int, tracks: map<string, Track>, log: seq<Request>)

  const START := Server(0, map[], [])

  datatype Event =
    | Tick(now: int)
    | Evict(key: string)
    | Incr(user: string, tool: string, ok: bool, applied: bool)
    | Expire(call: int, ok: bool, applied: bool)

  function TrackOf(g: Server, key: string): Track {
    if key in g.tracks then g.tracks[key] else Track(RateLimit.Absent, [])
  }

  function KeyOf(r: Request): string {
    Key(r.user, r.tool)
  }

  /** One key and some of its calls. */
  function Local(g: Server, key: string, calls: seq<RateLimit.Call>): RateLimit.State {
    RateLimit.State(g.now, TrackOf(g, key).counter, TrackOf(g, key).births, calls)
  }

  predicate Enabled(g: Server, e: Event) {
    match e
    case Tick(now) => g.now <= now
    case Evict(key) => RateLimit.Enabled(Local(g, key, []), RateLimit.Evict)
    case Incr(_, _, ok, applied) => ok ==> applied
    case Expire(i, ok, applied) => 0 <= i < |g.log| && g.log[i].call.fate == RateLimit.Owing && (ok ==> applied)
  }

  function Written(g: Server, key: string, s: RateLimit.State, log: seq<Request>): Server {
    g.(tracks := g.tracks[key := Track(s.counter, s.births)], log := log)
  }

  /** A command reads and writes the counter of one key. */
  function Apply(c: RateLimit.Config, g: Server, e: Event): Server
    requires Enabled(g, e)
  {
    match e
    case Tick(now) => g.(now := now)
    case Evict(key) => Written(g, key, RateLimit.Apply(c, Local(g, key, []), RateLimit.Evict), g.log)
    case Incr(user, tool, ok, applied) =>
      var key := Key(user, tool);
      var s := RateLimit.Apply(c, Local(g, key, []), RateLimit.Incr(ok, applied));
      Written(g, key, s, g.log + [Request(user, tool, s.log[0])])
    case Expire(i, ok, applied) =>
      var key := KeyOf(g.log[i]);
      var s := RateLimit.Apply(c, Local(g, key, [g.log[i].call]), RateLimit.Expire(0, ok, applied));
      Written(g, key, s, g.log[i := g.log[i].(call := s.log[0])])
  }

  predicate CanRun(c: RateLimit.Config, g: Server, es: seq<Event>)
    decreases |es|
  {
    es != [] ==> Enabled(g, es[0]) && CanRun(c, Apply(c, g, es[0]), es[1..])
  }

  /** The state after the events `es`: any interleaving of any calls of any users. */
  function Run(c: RateLimit.Config, g: Server, es: seq<Event>): Server
    requires CanRun(c, g, es)
    decreases |es|
  {
    if es == [] then g else Run(c, Apply(c, g, es[0]), es[1..])
  }

  // ---------- one key's view ----------

  function CallsOf(log: seq<Request>, key: string): seq<RateLimit.Call> {
    if log == [] then []
    else
      var calls := CallsOf(log[..|log| - 1], key);
      if KeyOf(log[|log| - 1]) == key then calls + [log[|log| - 1].call] else calls
  }

  /** What the server looks like under one key. */
  function View(g: Server, key: string): RateLimit.State {
    Local(g, key, CallsOf(g.log, key))
  }

  /** The number of call `i` among the calls of its key. */
  function Rank(log: seq<Request>, i: nat, key: string): nat
    requires i <= |log|
  {
    |CallsOf(log[..i], key)|
  }

  /** What one key sees of a step. */
  function Seen(g: Server, e: Event, key: string): seq<RateLimit.Event>
    requires Enabled(g, e)
  {
    match e
    case Tick(now) => [RateLimit.Tick(now)]
    case Evict(k) => if k == key then [RateLimit.Evict] else []
    case Incr(user, tool, ok, applied) => if Key(user, tool) == key then [RateLimit.Incr(ok, applied)] else []
    case Expire(i, ok, applied) =>
      if KeyOf(g.log[i]) == key then [RateLimit.Expire(Rank(g.log, i, key), ok, applied)] else []
  }

  lemma CallsSnoc(log: seq<Request>, r: Request, key: string)
    ensures CallsOf(log + [r], key) == if KeyOf(r) == key then CallsOf(log, key) + [r.call] else CallsOf(log, key)
  {
    assert (log + [r])[..|log|] == log;
  }

  lemma {:induction false} CallsConcat(log: seq<Request>, more: seq<Request>, key: string)
    ensures CallsOf(log + more, key) == CallsOf(log, key) + CallsOf(more, key)
  {
    if more == [] {
      assert log + more == log;
    } else {
      var init, last := more[..|more| - 1], more[|more| - 1];
      assert log + more == (log + init) + [last];
      CallsSnoc(log + init, last, key);
      CallsConcat(log, init, key);
    }
  }

  lemma CallsAround(before: seq<Request>, r: Request, after: seq<Request>, key: string)
    ensures var own := if KeyOf(r) == key then [r.call] else [];
      CallsOf(before + [r] + after, key) == CallsOf(before, key) + own + CallsOf(after, key)
  {
    CallsConcat(before + [r], after, key);
    CallsSnoc(before, r, key);
  }

  lemma UpdateMiddle<T>(a: seq<T>, x: T, y: T, b: seq<T>)
    ensures (a + [x] + b)[|a|] == x && (a + [x] + b)[|a| := y] == a + [y] + b
  {}

  /** Changing call `i` changes one call of its own key, and nothing else. */
  lemma CallsUpdate(log: seq<Request>, i: nat, call: RateLimit.Call, key: string)
    requires i < |log|
    ensures var calls := CallsOf(log, key); var log' := log[i := log[i].(call := call)];
      if KeyOf(log[i]) == key
      then Rank(log, i, key) < |calls| && calls[Rank(log, i, key)] == log[i].call
           && CallsOf(log', key) == calls[Rank(log, i, key) := call]
      else CallsOf(log', key) == calls
  {
    var r := log[i].(call := call);
    assert log == log[..i] + [log[i]] + log[i + 1..];
    assert log[i := r] == log[..i] + [r] + log[i + 1..];
    CallsAround(log[..i], log[i], log[i + 1..], key);
    CallsAround(log[..i], r, log[i + 1..], key);
    UpdateMiddle(CallsOf(log[..i], key), log[i].call, call, CallsOf(log[i + 1..], key));
  }

  lemma SeenOne(c: RateLimit.Config, s: RateLimit.State, e: RateLimit.Event)
    requires RateLimit.Enabled(s, e)
    ensures RateLimit.CanRun(c, s, [e]) && RateLimit.Run(c, s, [e]) == RateLimit.Apply(c, s, e)
  {
    var s' := RateLimit.Apply(c, s, e);
    assert [e][1..] == [];
    assert RateLimit.CanRun(c, s', []) && RateLimit.Run(c, s', []) == s';
  }

  lemma IncrSeen(c: RateLimit.Config, g: Server, user: string, tool: string, reply: Reply, key: string)
    requires reply.Valid()
    ensures var g' := Apply(c, g, Incr(user, tool, reply.ok, reply.applied));
      View(g', key) ==
      if Key(user, tool) == key
      then RateLimit.Apply(c, View(g, key), RateLimit.Incr(reply.ok, reply.applied))
      else View(g, key)
  {
    var g' := Apply(c, g, Incr(user, tool, reply.ok, reply.applied));
    CallsSnoc(g.log, g'.log[|g.log|], key);
  }

  lemma ExpireSeen(c: RateLimit.Config, g: Server, i: int, reply: Reply, key: string)
    requires Enabled(g, Expire(i, reply.ok, reply.applied))
    ensures var g' := Apply(c, g, Expire(i, reply.ok, reply.applied));
      if KeyOf(g.log[i]) == key
      then
        var e := RateLimit.Expire(Rank(g.log, i, key), reply.ok, reply.applied);
        RateLimit.Enabled(View(g, key), e) && View(g', key) == RateLimit.Apply(c, View(g, key), e)
      else View(g', key) == View(g, key)
  {
    var g' := Apply(c, g, Expire(i, reply.ok, reply.applied));
    CallsUpdate(g.log, i, g'.log[i].call, key);
  }

  /** Isolation: a step changes the view of its own key, by one step of `RateLimit`, and of no other key. */
  lemma StepSeen(c: RateLimit.Config, g: Server, e: Event, key: string)
    requires Enabled(g, e)
    ensures var seen := Seen(g, e, key);
      RateLimit.CanRun(c, View(g, key), seen) && View(Apply(c, g, e), key) == RateLimit.Run(c, View(g, key), seen)
  {
    match e
    case Tick(now) =>
    case Evict(k) =>
    case Incr(user, tool, ok, applied) => IncrSeen(c, g, user, tool, Reply(ok, applied), key);
    case Expire(i, ok, applied) => ExpireSeen(c, g, i, Reply(ok, applied), key);
    var seen := Seen(g, e, key);
    if seen != [] {
      assert seen == [seen[0]];
      SeenOne(c, View(g, key), seen[0]);
    }
  }

  /** What one key sees of a run. */
  function AllSeen(c: RateLimit.Config, g: Server, es: seq<Event>, key: string): seq<RateLimit.Event>
    requires CanRun(c, g, es)
    decreases |es|
  {
    if es == [] then [] else Seen(g, es[0], key) + AllSeen(c, Apply(c, g, es[0]), es[1..], key)
  }

  /** Seen from one key, an interleaving of all users' calls is a run of `RateLimit`. */
  lemma {:induction false} RunSeen(c: RateLimit.Config, g: Server, es: seq<Event>, key: string)
    requires CanRun(c, g, es)
    ensures var seen := AllSeen(c, g, es, key);
      RateLimit.CanRun(c, View(g, key), seen) && View(Run(c, g, es), key) == RateLimit.Run(c, View(g, key), seen)
    decreases |es|
  {
    if es != [] {
      StepSeen(c, g, es[0], key);
      RunSeen(c, Apply(c, g, es[0]), es[1..], key);
      RateLimit.RunAppend(c, View(g, key), Seen(g, es[0], key), AllSeen(c, Apply(c, g, es[0]), es[1..], key));
    }
  }

  /** Two runs of which a key sees the same leave it in the same state, whatever the other users did. */
  lemma OthersDoNotMatter(c: RateLimit.Config, es: seq<Event>, es': seq<Event>, key: string)
    requires CanRun(c, START, es) && CanRun(c, START, es')
    requires AllSeen(c, START, es, key) == AllSeen(c, START, es', key)
    ensures View(Run(c, START, es), key) == View(Run(c, START, es'), key)
  {
    RunSeen(c, START, es, key);
    RunSeen(c, START, es', key);
  }

  // ---------- one user's bound ----------

  predicate IsOf(r: Request, user: string, tool: string) {
    User(r.user) == User(user) && r.tool == tool
  }

  function OwnCalls(log: seq<Request>, user: string, tool: string): seq<RateLimit.Call> {
    if log == [] then []
    else
      var calls := OwnCalls(log[..|log| - 1], user, tool);
      if IsOf(log[|log| - 1], user, tool) then calls + [log[|log| - 1].call] else calls
  }

  /** Calls for tools without a colon are counted under a key of their own user and tool. */
  lemma {:induction false} CallsAreOwn(log: seq<Request>, user: string, tool: string)
    requires ':' !in tool && forall i :: 0 <= i < |log| ==> ':' !in log[i].tool
    ensures CallsOf(log, Key(user, tool)) == OwnCalls(log, user, tool)
  {
    if log != [] {
      var last := log[|log| - 1];
      CallsAreOwn(log[..|log| - 1], user, tool);
      KeyInjective(last.user, last.tool, user, tool);
    }
  }

  lemma PassesSnoc(calls: seq<RateLimit.Call>, call: RateLimit.Call, from: int, to: int)
    ensures RateLimit.PassesIn(calls + [call], from, to)
         == RateLimit.PassesIn(calls, from, to)
            + if call.fate == RateLimit.Passed && from <= call.time < to then 1 else 0
  {
    assert (calls + [call])[..|calls|] == calls;
  }

  lemma {:induction false} OwnPasses(log: seq<Request>, user: string, tool: string, from: int, to: int)
    ensures RateLimit.PassesIn(OwnCalls(log, user, tool), from, to)
         <= RateLimit.PassesIn(CallsOf(log, Key(user, tool)), from, to)
  {
    if log != [] {
      var init, last := log[..|log| - 1], log[|log| - 1];
      OwnPasses(init, user, tool, from, to);
      PassesSnoc(OwnCalls(init, user, tool), last.call, from, to);
      PassesSnoc(CallsOf(init, Key(user, tool)), last.call, from, to);
    }
  }

  /** Whatever other users do, and whatever errors their calls meet: at most 2 * limit - 1 calls of one user
      for one tool pass in one TTL. */
  lemma UserBound(c: RateLimit.Config, es: seq<Event>, user: string, tool: string, a: int)
    requires c.Valid() && CanRun(c, START, es)
    requires RateLimit.Guarded(c, AllSeen(c, START, es, Key(user, tool)))
    ensures RateLimit.PassesIn(OwnCalls(Run(c, START, es).log, user, tool), a, a + c.ttl) <= 2 * c.limit - 1
  {
    var key, g := Key(user, tool), Run(c, START, es);
    var seen := AllSeen(c, START, es, key);
    RunSeen(c, START, es, key);
    assert View(START, key) == RateLimit.INIT;
    RateLimit.WindowBound(c, seen, a, 0);
    OwnPasses(g.log, user, tool, a, a + c.ttl);
  }

  /** Where no tool has a colon in its name, what a user's calls for a tool meet is what those calls make of
      the one-key relation: no other call is among them. */
  lemma OwnCallsOnly(c: RateLimit.Config, es: seq<Event>, user: string, tool: string)
    requires CanRun(c, START, es) && ':' !in tool
    requires forall r :: r in Run(c, START, es).log ==> ':' !in r.tool
    ensures var key := Key(user, tool); var seen := AllSeen(c, START, es, key);
      && RateLimit.CanRun(c, RateLimit.INIT, seen)
      && RateLimit.Run(c, RateLimit.INIT, seen).log == OwnCalls(Run(c, START, es).log, user, tool)
  {
    assert View(START, Key(user, tool)) == RateLimit.INIT;
    RunSeen(c, START, es, Key(user, tool));
    CallsAreOwn(Run(c, START, es).log, user, tool);
  }

  // ---------- the server and its client, as they are coded ----------

  /** `RateLimit`'s invariant, under every key. */
  ghost predicate Inv(c: RateLimit.Config, g: Server) {
    forall key :: RateLimit.Inv(c, View(g, key))
  }

  /** What the server stores under a key. */
  datatype Stored = Stored(count: int, expiry: Option<int>)

  predicate Matches(keys: map<string, Stored>, key: string, counter: RateLimit.Counter) {
    match counter
    case Absent => key !in keys
    case Live(value, _, expiry) => key in keys && keys[key] == Stored(value, expiry)
  }

  /** The stored keys are the live counters. */
  ghost predicate Mirrors(keys: map<string, Stored>, g: Server) {
    forall key :: Matches(keys, key, TrackOf(g, key).counter)
  }

  lemma MirrorsStays(keys: map<string, Stored>, g: Server, keys': map<string, Stored>, g': Server, key: string)
    requires Mirrors(keys, g) && Matches(keys', key, TrackOf(g', key).counter)
    requires keys' - {key} == keys - {key} && g'.tracks - {key} == g.tracks - {key}
    ensures Mirrors(keys', g')
  {
    forall k ensures Matches(keys', k, TrackOf(g', k).counter) {
      assert Matches(keys, k, TrackOf(g, k).counter);
      assert k != key ==> (k in keys' <==> k in keys' - {key}) && (k in keys <==> k in keys - {key});
      assert k != key && k in keys ==> keys[k] == (keys - {key})[k] == (keys' - {key})[k];
      assert k != key ==> (k in g'.tracks <==> k in g'.tracks - {key}) && (k in g.tracks <==> k in g.tracks - {key});
      assert k != key && k in g.tracks ==> g.tracks[k] == (g.tracks - {key})[k] == (g'.tracks - {key})[k];
    }
  }

  lemma InvStays(c: RateLimit.Config, g: Server, e: Event)
    requires Inv(c, g) && Enabled(g, e)
    ensures Inv(c, Apply(c, g, e))
  {
    forall key ensures RateLimit.Inv(c, View(Apply(c, g, e), key)) {
      StepSeen(c, g, e, key);
      RateLimit.RunKeepsInv(c, View(g, key), Seen(g, e, key));
    }
  }

  /** The steps of a call that nothing interrupts. */
  function CallSteps(g: Server, user: string, tool: string, incr: Reply, expire: Reply): seq<Event> {
    [Incr(user, tool, incr.ok, incr.applied)]
    + if incr.ok && RateLimit.Bump(View(g, Key(user, tool))).value == 1
      then [Expire(|g.log|, expire.ok, expire.applied)] else []
  }

  /** Only the view of `key` may change. */
  ghost predicate OnlyKey(g: Server, g': Server, key: string) {
    g'.now == g.now && forall k :: k != key ==> View(g', k) == View(g, k)
  }

  /** What the code of one call does to the server: its own steps, which are one undisturbed call under its
      key and leave every other key as it is. */
  ghost predicate CallServed(c: RateLimit.Config, g: Server, g': Server, user: string, tool: string,
                             incr: Reply, expire: Reply) {
    var es := CallSteps(g, user, tool, incr, expire);
    && CanRun(c, g, es) && g' == Run(c, g, es)
    && RateLimit.CallMade(c, View(g, Key(user, tool)), View(g', Key(user, tool)), incr, expire)
    && OnlyKey(g, g', Key(user, tool))
  }

  /** How the server decides an undisturbed call. */
  function FateOf(c: RateLimit.Config, answer: Option<int>): RateLimit.Fate {
    if answer.Some? then RateLimit.Decide(c, answer.value) else RateLimit.OnError(c)
  }

  lemma SeenTwo(c: RateLimit.Config, s: RateLimit.State, e: RateLimit.Event, f: RateLimit.Event)
    requires RateLimit.Enabled(s, e) && RateLimit.Enabled(RateLimit.Apply(c, s, e), f)
    ensures RateLimit.CanRun(c, s, [e] + [f])
    ensures RateLimit.Run(c, s, [e] + [f]) == RateLimit.Apply(c, RateLimit.Apply(c, s, e), f)
  {
    SeenOne(c, s, e);
    SeenOne(c, RateLimit.Apply(c, s, e), f);
    RateLimit.RunAppend(c, s, [e], [f]);
  }

  lemma StepsRun(c: RateLimit.Config, g: Server, e: Event)
    requires Enabled(g, e)
    ensures CanRun(c, g, [e]) && Run(c, g, [e]) == Apply(c, g, e)
    ensures forall f :: Enabled(Apply(c, g, e), f) ==>
      CanRun(c, g, [e] + [f]) && Run(c, g, [e] + [f]) == Apply(c, Apply(c, g, e), f)
  {
    var g' := Apply(c, g, e);
    assert [e][1..] == [];
    assert CanRun(c, g', []) && Run(c, g', []) == g';
    forall f | Enabled(g', f)
      ensures CanRun(c, g, [e] + [f]) && Run(c, g, [e] + [f]) == Apply(c, g', f)
    {
      assert ([e] + [f])[1..] == [f] && [f][1..] == [];
      var h := Apply(c, g', f);
      assert CanRun(c, h, []) && Run(c, h, []) == h;
    }
  }

  /** The INCR of a call, and under its key the EXPIRE it owes, if it owes one. */
  lemma FirstStep(c: RateLimit.Config, g: Server, user: string, tool: string, incr: Reply)
    requires incr.Valid()
    ensures var key := Key(user, tool); var g' := Apply(c, g, Incr(user, tool, incr.ok, incr.applied));
      && View(g', key) == RateLimit.Apply(c, View(g, key), RateLimit.Incr(incr.ok, incr.applied))
      && OnlyKey(g, g', key)
      && |g'.log| == |g.log| + 1 && KeyOf(g'.log[|g.log|]) == key
      && Rank(g'.log, |g.log|, key) == |View(g, key).log|
      && g'.log[|g.log|].call == View(g', key).log[|View(g, key).log|]
  {
    var key, g' := Key(user, tool), Apply(c, g, Incr(user, tool, incr.ok, incr.applied));
    forall k ensures k != key ==> View(g', k) == View(g, k) {
      IncrSeen(c, g, user, tool, incr, k);
    }
    IncrSeen(c, g, user, tool, incr, key);
    CallsSnoc(g.log, g'.log[|g.log|], key);
    assert g'.log[..|g.log|] == g.log;
  }

  lemma SecondStep(c: RateLimit.Config, g: Server, i: nat, expire: Reply, key: string)
    requires expire.Valid() && i < |g.log| && KeyOf(g.log[i]) == key && g.log[i].call.fate == RateLimit.Owing
    ensures var g' := Apply(c, g, Expire(i, expire.ok, expire.applied));
      var e := RateLimit.Expire(Rank(g.log, i, key), expire.ok, expire.applied);
      && RateLimit.Enabled(View(g, key), e)
      && View(g', key) == RateLimit.Apply(c, View(g, key), e)
      && OnlyKey(g, g', key)
  {
    var g' := Apply(c, g, Expire(i, expire.ok, expire.applied));
    forall k ensures k != key ==> View(g', k) == View(g, k) {
      ExpireSeen(c, g, i, expire, k);
    }
    ExpireSeen(c, g, i, expire, key);
  }

  lemma Served(c: RateLimit.Config, g: Server, user: string, tool: string, incr: Reply, expire: Reply)
    requires Inv(c, g) && incr.Valid() && expire.Valid()
    ensures var es := CallSteps(g, user, tool, incr, expire);
      CanRun(c, g, es) && CallServed(c, g, Run(c, g, es), user, tool, incr, expire)
    ensures var s := View(g, Key(user, tool));
      View(Run(c, g, CallSteps(g, user, tool, incr, expire)), Key(user, tool)).log[|s.log|].fate
      == FateOf(c, RateLimit.Answer(s, incr, expire))
  {
    var key := Key(user, tool);
    var s := View(g, key);
    assert RateLimit.Inv(c, s);
    var e := Incr(user, tool, incr.ok, incr.applied);
    var e' := RateLimit.Incr(incr.ok, incr.applied);
    FirstStep(c, g, user, tool, incr);
    StepsRun(c, g, e);
    SeenOne(c, s, e');
    if incr.ok && RateLimit.Bump(s).value == 1 {
      var f := Expire(|g.log|, expire.ok, expire.applied);
      var f' := RateLimit.Expire(|s.log|, expire.ok, expire.applied);
      var g1 := Apply(c, g, e);
      SecondStep(c, g1, |g.log|, expire, key);
      SeenTwo(c, s, e', f');
      assert CallSteps(g, user, tool, incr, expire) == [e] + [f];
      assert RateLimit.CallEvents(s, incr, expire) == [e'] + [f'];
    } else {
      assert CallSteps(g, user, tool, incr, expire) == [e];
      assert RateLimit.CallEvents(s, incr, expire) == [e'];
    }
  }

  class Limiter {
    const config: RateLimit.Config
    var now: int
    var keys: map<string, Stored>
    ghost var state: Server

    ghost predicate Valid()
      reads this
    {
      && config.Valid() && now == state.now && Inv(config, state)
      && Mirrors(keys, state)
    }

    constructor (config: RateLimit.Config)
      requires config.Valid()
      ensures Valid() && state == START && this.config == config
    {
      this.config := config;
      now := 0;
      keys := map[];
      state := START;
    }

    /** Time passes. */
    method Tick(later: int)
      requires Valid() && now <= later
      modifies this
      ensures Valid() && state == Apply(config, old(state), Event.Tick(later))
    {
      InvStays(config, state, Event.Tick(later));
      ghost var g := state;
      state := Apply(config, state, Event.Tick(later));
      assert Matches(keys, "", TrackOf(g, "").counter);
      MirrorsStays(keys, g, keys, state, "");
      now := later;
    }

    /** The server drops a key that has run out; true if it had. */
    method Evict(key: string) returns (gone: bool)
      requires Valid()
      modifies this
      ensures Valid() && (gone <==> Enabled(old(state), Event.Evict(key)))
      ensures state == if gone then Apply(config, old(state), Event.Evict(key)) else old(state)
    {
      assert Matches(keys, key, TrackOf(state, key).counter);
      gone := key in keys && keys[key].expiry.Some? && keys[key].expiry.value <= now;
      if gone {
        InvStays(config, state, Event.Evict(key));
        ghost var g, before := state, keys;
        state := Apply(config, state, Event.Evict(key));
        keys := keys - {key};
        MirrorsStays(before, g, keys, state, key);
      }
    }

    /** The INCR command; None on an error. */
    method Increment(user: string, tool: string, reply: Reply) returns (n: Option<int>)
      requires Valid() && reply.Valid()
      modifies this
      ensures Valid() && state == Apply(config, old(state), Incr(user, tool, reply.ok, reply.applied))
      ensures n == if reply.ok then Some(RateLimit.Bump(View(old(state), Key(user, tool))).value) else None
    {
      var key := Key(user, tool);
      assert Matches(keys, key, TrackOf(state, key).counter);
      InvStays(config, state, Incr(user, tool, reply.ok, reply.applied));
      ghost var g, before := state, keys;
      state := Apply(config, state, Incr(user, tool, reply.ok, reply.applied));
      if reply.applied {
        var stored := if key in keys then keys[key].(count := keys[key].count + 1) else Stored(1, None);
        keys := keys[key := stored];
      }
      MirrorsStays(before, g, keys, state, key);
      n := if reply.ok then Some(keys[key].count) else None;
    }

    /** The EXPIRE command sent by call number `call`. */
    method ExpireKey(ghost call: int, key: string, reply: Reply) returns (ok: bool)
      requires Valid() && Enabled(state, Expire(call, reply.ok, reply.applied)) && KeyOf(state.log[call]) == key
      modifies this
      ensures Valid() && state == Apply(config, old(state), Expire(call, reply.ok, reply.applied))
      ensures ok == reply.ok
    {
      assert Matches(keys, key, TrackOf(state, key).counter);
      InvStays(config, state, Expire(call, reply.ok, reply.applied));
      ghost var g, before := state, keys;
      state := Apply(config, state, Expire(call, reply.ok, reply.applied));
      if reply.applied && key in keys {
        keys := keys[key := keys[key].(expiry := Some(now + config.ttl))];
      }
      MirrorsStays(before, g, keys, state, key);
      ok := reply.ok;
    }

    /** IncrWithTTL under the key of (user, tool): the count, or None on an error. */
    method IncrWithTTL(user: string, tool: string, incr: Reply, expire: Reply) returns (n: Option<int>)
      requires Valid() && incr.Valid() && expire.Valid()
      modifies this
      ensures Valid() && CallServed(config, old(state), state, user, tool, incr, expire)
      ensures n == RateLimit.Answer(View(old(state), Key(user, tool)), incr, expire)
      ensures var s := View(old(state), Key(user, tool));
        View(state, Key(user, tool)).log[|s.log|].fate == FateOf(config, n)
    {
      ghost var g := state;
      Served(config, g, user, tool, incr, expire);
      StepsRun(config, g, Incr(user, tool, incr.ok, incr.applied));
      FirstStep(config, g, user, tool, incr);
      n := Increment(user, tool, incr);
      if n == None {
        return;
      }
      if n.value == 1 {
        var ok := ExpireKey(|g.log|, Key(user, tool), expire);
        if !ok {
          return None;
        }
      }
    }

    /** checkRateLimit with a limiter: None lets the call pass. */
    method CheckRateLimit(user: string, tool: string, incr: Reply, expire: Reply)
      returns (refusal: Option<RateLimit.Refusal>)
      requires Valid() && incr.Valid() && expire.Valid()
      modifies this
      ensures Valid() && CallServed(config, old(state), state, user, tool, incr, expire)
      ensures refusal == RateLimit.RefusalOf(config, View(old(state), Key(user, tool)), incr, expire)
      ensures refusal == None <==>
        RateLimit.Passes(View(old(state), Key(user, tool)), View(state, Key(user, tool)))
    {
      var n := IncrWithTTL(user, tool, incr, expire);
      if n == None {
        return if config.failClosed then Some(RateLimit.Unavailable) else None;
      }
      if n.value > config.limit {
        return Some(RateLimit.Exceeded);
      }
      return None;
    }
  }
}
