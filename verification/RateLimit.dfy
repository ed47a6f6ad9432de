/** The fixed-window rate limiter (internal/repository/redis.go:29-40, internal/policy/policy.go:111-128).

    IncrWithTTL sends two separate commands, INCR and (when INCR answered 1) EXPIRE.  Calls of many clients
    interleave between the two, time passes between them, and each of them may fail, with or without having
    taken effect on the server.  The model is a step relation over the one counter of a (user, tool) pair. */
module RateLimit {
  import opened Wrappers

  /** `limit` is positive: NewEngine replaces any other value by 60. */
  datatype Config = Config(ttl: int, limit: int, failClosed: bool) {
    predicate Valid() { 0 < ttl && 0 < limit }
  }

  /** The server's key: `life` numbers its incarnations, `expiry` is None until an EXPIRE takes effect. */
  datatype Counter = Absent | Live(value: int, life: int, expiry: Option<int>)

  /** What became of a call: it owes the EXPIRE for the 1 it saw, or it has been decided. */
  datatype Fate = Owing | Passed | Denied

  /** One call of the limiter: the time of its INCR, the counter's incarnation and the value INCR left there
      (0 when INCR did not take effect). */
  datatype Call = Call(time: int, life: int, value: int, fate: Fate)

  /** `births[k]` is the time of the INCR that created incarnation k. */
  datatype State = State(now: int, counter: Counter, births: seq<int>, log: seq<Call>)

  const INIT := State(0, Absent, [], [])

  datatype Event =
    | Tick(now: int)
    | Evict
    | Incr(ok: bool, applied: bool)
    | Expire(call: int, ok: bool, applied: bool)

  /** A command that answers without an error has taken effect; one that fails may have. */
  predicate Enabled(s: State, e: Event) {
    match e
    case Tick(now) => s.now <= now
    case Evict => s.counter.Live? && s.counter.expiry.Some? && s.counter.expiry.value <= s.now
    case Incr(ok, applied) => ok ==> applied
    case Expire(i, ok, applied) => 0 <= i < |s.log| && s.log[i].fate == Owing && (ok ==> applied)
  }

  /** The counter after an INCR. */
  function Bump(s: State): Counter {
    match s.counter
    case Absent => Live(1, |s.births|, None)
    case Live(value, life, expiry) => Live(value + 1, life, expiry)
  }

  /** checkRateLimit's decision on a call without an error, and on a failed one. */
  function Decide(c: Config, value: int): Fate {
    if value > c.limit then Denied else Passed
  }

  function OnError(c: Config): Fate {
    if c.failClosed then Denied else Passed
  }

  function Apply(c: Config, s: State, e: Event): State
    requires Enabled(s, e)
  {
    match e
    case Tick(now) => s.(now := now)
    case Evict => s.(counter := Absent)
    case Incr(ok, applied) =>
      if !applied then s.(log := s.log + [Call(s.now, 0, 0, OnError(c))])
      else
        var n := Bump(s);
        var fate := if !ok then OnError(c) else if n.value == 1 then Owing else Decide(c, n.value);
        State(s.now, n, if s.counter.Absent? then s.births + [s.now] else s.births,
              s.log + [Call(s.now, n.life, n.value, fate)])
    case Expire(i, ok, applied) =>
      var fate := if ok then Decide(c, s.log[i].value) else OnError(c);
      s.(counter := if applied && s.counter.Live? then s.counter.(expiry := Some(s.now + c.ttl)) else s.counter,
         log := s.log[i := s.log[i].(fate := fate)])
  }

  predicate CanRun(c: Config, s: State, es: seq<Event>)
    decreases |es|
  {
    es != [] ==> Enabled(s, es[0]) && CanRun(c, Apply(c, s, es[0]), es[1..])
  }

  /** The state after the events `es`: any interleaving of any number of calls. */
  function Run(c: Config, s: State, es: seq<Event>): State
    requires CanRun(c, s, es)
    decreases |es|
  {
    if es == [] then s else Run(c, Apply(c, s, es[0]), es[1..])
  }

  predicate NoError(e: Event) {
    (e.Incr? ==> e.ok) && (e.Expire? ==> e.ok)
  }

  predicate NoErrors(es: seq<Event>) {
    forall i :: 0 <= i < |es| ==> NoError(es[i])
  }

  /** Where the bounds hold: a failed call is refused, or no call fails. */
  predicate Guarded(c: Config, es: seq<Event>) {
    c.failClosed || NoErrors(es)
  }

  // ---------- the invariant of every run ----------

  /** Incarnations begin at least a TTL apart. */
  predicate Spaced(c: Config, s: State) {
    && (forall k :: 0 <= k < |s.births| ==> s.births[k] <= s.now)
    && (forall k, l :: 0 <= k < l < |s.births| ==> s.births[k] + c.ttl <= s.births[l])
    && match s.counter
       case Absent => s.births != [] ==> s.births[|s.births| - 1] + c.ttl <= s.now
       case Live(value, life, expiry) =>
         && 1 <= value
         && 0 <= life == |s.births| - 1
         && (expiry.Some? ==> s.births[life] + c.ttl <= expiry.value)
  }

  /** A counted call lies in the time of its incarnation, and the one that saw 1 began it. */
  predicate InLife(s: State, call: Call) {
    && 0 <= call.life < |s.births|
    && s.births[call.life] <= call.time <= s.now
    && (forall k :: call.life < k < |s.births| ==> call.time <= s.births[k])
    && (call.value == 1 ==> call.time == s.births[call.life])
    && (s.counter.Live? && s.counter.life == call.life ==> call.value <= s.counter.value)
  }

  predicate Placed(s: State) {
    forall i :: 0 <= i < |s.log| ==> 0 <= s.log[i].value && (s.log[i].value > 0 ==> InLife(s, s.log[i]))
  }

  /** Within an incarnation the answers of INCR are distinct and increase. */
  predicate Increasing(log: seq<Call>) {
    forall i, j :: 0 <= i < j < |log| && 0 < log[i].value && 0 < log[j].value && log[i].life == log[j].life
      ==> log[i].value < log[j].value
  }

  /** A call that still owes its EXPIRE saw 1, and the counter it saw is still there, without an expiry:
      the EXPIRE will land on that same incarnation. */
  predicate Owes(s: State, call: Call) {
    && call.value == 1
    && s.counter.Live?
    && s.counter.expiry.None?
    && call.life == s.counter.life
  }

  predicate Debts(s: State) {
    forall i :: 0 <= i < |s.log| && s.log[i].fate == Owing ==> Owes(s, s.log[i])
  }

  predicate Inv(c: Config, s: State) {
    c.Valid() && Spaced(c, s) && Placed(s) && Increasing(s.log) && Debts(s)
  }

  lemma StepKeepsSpaced(c: Config, s: State, e: Event)
    requires Inv(c, s) && Enabled(s, e)
    ensures Spaced(c, Apply(c, s, e))
  {
    var s' := Apply(c, s, e);
    assert forall k :: 0 <= k < |s.births| ==> s'.births[k] == s.births[k];
  }

  lemma StepKeepsPlaced(c: Config, s: State, e: Event)
    requires Inv(c, s) && Enabled(s, e)
    ensures Placed(Apply(c, s, e))
  {
    var s' := Apply(c, s, e);
    forall i | 0 <= i < |s'.log| && s'.log[i].value > 0
      ensures InLife(s', s'.log[i])
    {
      if i < |s.log| {
        assert InLife(s, s.log[i]);
        InLifeStays(c, s, e, s.log[i]);
      }
    }
  }

  lemma InLifeStays(c: Config, s: State, e: Event, call: Call)
    requires Inv(c, s) && Enabled(s, e) && InLife(s, call)
    ensures InLife(Apply(c, s, e), call)
  {
    var s' := Apply(c, s, e);
    assert forall k :: 0 <= k < |s.births| ==> s'.births[k] == s.births[k];
  }

  lemma StepKeepsIncreasing(c: Config, s: State, e: Event)
    requires Inv(c, s) && Enabled(s, e)
    ensures Increasing(Apply(c, s, e).log)
  {
    assert forall i :: 0 <= i < |s.log| && s.log[i].value > 0 ==> InLife(s, s.log[i]);
  }

  lemma StepKeepsDebts(c: Config, s: State, e: Event)
    requires Inv(c, s) && Enabled(s, e)
    ensures Debts(Apply(c, s, e))
  {
    var s' := Apply(c, s, e);
    assert e.Expire? ==> Owes(s, s.log[e.call]);
    forall i | 0 <= i < |s'.log| && s'.log[i].fate == Owing
      ensures Owes(s', s'.log[i])
    {
      assert i < |s.log| ==> s'.log[i] == s.log[i] && Owes(s, s.log[i]);
    }
  }

  lemma StepKeepsInv(c: Config, s: State, e: Event)
    requires Inv(c, s) && Enabled(s, e)
    ensures Inv(c, Apply(c, s, e))
  {
    StepKeepsSpaced(c, s, e);
    StepKeepsPlaced(c, s, e);
    StepKeepsIncreasing(c, s, e);
    StepKeepsDebts(c, s, e);
  }

  lemma {:induction false} RunKeepsInv(c: Config, s: State, es: seq<Event>)
    requires Inv(c, s) && CanRun(c, s, es)
    ensures Inv(c, Run(c, s, es))
    decreases |es|
  {
    if es != [] {
      StepKeepsInv(c, s, es[0]);
      RunKeepsInv(c, Apply(c, s, es[0]), es[1..]);
    }
  }

  // ---------- at most 2 * limit - 1 passes in any TTL ----------

  /** Calls decided "passed" whose INCR came at a time in [from, to). */
  function PassesIn(log: seq<Call>, from: int, to: int): nat {
    if log == [] then 0
    else
      var last := log[|log| - 1];
      PassesIn(log[..|log| - 1], from, to) + if last.fate == Passed && from <= last.time < to then 1 else 0
  }

  /** Passed calls of one incarnation that saw a value of at least `lo`. */
  function PassesOf(log: seq<Call>, life: int, lo: int): nat {
    if log == [] then 0
    else
      var last := log[|log| - 1];
      PassesOf(log[..|log| - 1], life, lo)
      + if last.fate == Passed && last.life == life && lo <= last.value then 1 else 0
  }

  lemma {:induction false} PassesOfBound(log: seq<Call>, life: int, lo: int, hi: int)
    requires Increasing(log) && 1 <= lo
    requires forall i :: 0 <= i < |log| && log[i].fate == Passed && log[i].life == life ==> log[i].value <= hi
    ensures PassesOf(log, life, lo) <= if lo <= hi then hi - lo + 1 else 0
  {
    if log != [] {
      var last := log[|log| - 1];
      var init := log[..|log| - 1];
      assert forall i :: 0 <= i < |init| ==> init[i] == log[i];
      if last.fate == Passed && last.life == life && lo <= last.value {
        PassesOfBound(init, life, lo, last.value - 1);
      } else {
        PassesOfBound(init, life, lo, hi);
      }
    }
  }

  /** Where the limiter is guarded, a call passes only on an answer within the limit. */
  predicate WithinLimit(c: Config, s: State) {
    forall i :: 0 <= i < |s.log| && s.log[i].fate == Passed ==> 1 <= s.log[i].value <= c.limit
  }

  lemma StepKeepsWithinLimit(c: Config, s: State, e: Event)
    requires Inv(c, s) && WithinLimit(c, s) && Enabled(s, e) && (c.failClosed || NoError(e))
    ensures WithinLimit(c, Apply(c, s, e))
  {
    assert e.Expire? ==> Owes(s, s.log[e.call]);
    assert e.Incr? && s.counter.Live? ==> 1 <= s.counter.value;
  }

  lemma {:induction false} RunKeepsWithinLimit(c: Config, s: State, es: seq<Event>)
    requires Inv(c, s) && WithinLimit(c, s) && CanRun(c, s, es) && Guarded(c, es)
    ensures WithinLimit(c, Run(c, s, es))
    decreases |es|
  {
    if es != [] {
      var e := es[0];
      assert NoErrors(es) ==> NoError(e) && NoErrors(es[1..]);
      StepKeepsInv(c, s, e);
      StepKeepsWithinLimit(c, s, e);
      RunKeepsWithinLimit(c, Apply(c, s, e), es[1..]);
    }
  }

  /** The last incarnation that began before `a` (-1 if there is none). */
  function LastBefore(births: seq<int>, a: int): (k: int)
    ensures -1 <= k < |births|
    ensures 0 <= k ==> births[k] < a
    ensures forall l :: k < l < |births| ==> a <= births[l]
  {
    if births != [] && a <= births[|births| - 1] then LastBefore(births[..|births| - 1], a)
    else |births| - 1
  }

  /** A window of one TTL meets at most two incarnations, and misses the first call of the earlier one. */
  lemma WindowMeetsTwoLives(c: Config, s: State, a: int, call: Call)
    requires Inv(c, s) && call.value > 0 && InLife(s, call) && a <= call.time < a + c.ttl
    ensures var k := LastBefore(s.births, a);
      call.life == k + 1 || (call.life == k && call.value >= 2)
  {
    var k := LastBefore(s.births, a);
    assert forall l :: k + 1 < l < |s.births| ==> s.births[k + 1] + c.ttl <= s.births[l];
  }

  lemma {:induction false} SplitWindow(log: seq<Call>, from: int, to: int, life: int)
    requires forall i :: 0 <= i < |log| && log[i].fate == Passed && from <= log[i].time < to ==>
      (log[i].life == life + 1 && log[i].value >= 1) || (log[i].life == life && log[i].value >= 2)
    ensures PassesIn(log, from, to) <= PassesOf(log, life, 2) + PassesOf(log, life + 1, 1)
  {
    if log != [] {
      var init := log[..|log| - 1];
      assert forall i :: 0 <= i < |init| ==> init[i] == log[i];
      SplitWindow(init, from, to, life);
    }
  }

  lemma StateBound(c: Config, s: State, a: int, life: int)
    requires c.Valid() && Inv(c, s) && WithinLimit(c, s)
    ensures PassesIn(s.log, a, a + c.ttl) <= 2 * c.limit - 1
    ensures PassesOf(s.log, life, 1) <= c.limit
  {
    var k := LastBefore(s.births, a);
    forall i | 0 <= i < |s.log| && s.log[i].fate == Passed && a <= s.log[i].time < a + c.ttl
      ensures s.log[i].life == k + 1 || (s.log[i].life == k && s.log[i].value >= 2)
    {
      WindowMeetsTwoLives(c, s, a, s.log[i]);
    }
    SplitWindow(s.log, a, a + c.ttl, k);
    PassesOfBound(s.log, k, 2, c.limit);
    PassesOfBound(s.log, k + 1, 1, c.limit);
    PassesOfBound(s.log, life, 1, c.limit);
  }

  /** In every interleaving, an interval of one TTL holds at most 2 * limit - 1 passes, and one incarnation
      of the counter at most `limit`. */
  lemma WindowBound(c: Config, es: seq<Event>, a: int, life: int)
    requires c.Valid() && CanRun(c, INIT, es) && Guarded(c, es)
    ensures PassesIn(Run(c, INIT, es).log, a, a + c.ttl) <= 2 * c.limit - 1
    ensures PassesOf(Run(c, INIT, es).log, life, 1) <= c.limit
  {
    RunKeepsInv(c, INIT, es);
    RunKeepsWithinLimit(c, INIT, es);
    StateBound(c, Run(c, INIT, es), a, life);
  }

  /** A pass on no answer within the limit: a failed call that fail-open mode lets through. */
  predicate IsLetThrough(c: Config, call: Call) {
    call.fate == Passed && !(1 <= call.value <= c.limit)
  }

  function LetThrough(c: Config, log: seq<Call>): nat {
    if log == [] then 0
    else LetThrough(c, log[..|log| - 1]) + if IsLetThrough(c, log[|log| - 1]) then 1 else 0
  }

  function Errors(es: seq<Event>): nat {
    if es == [] then 0 else (if NoError(es[0]) then 0 else 1) + Errors(es[1..])
  }

  lemma {:induction false} LetThroughStays(c: Config, log: seq<Call>, i: nat, call: Call)
    requires i < |log| && (IsLetThrough(c, call) <==> IsLetThrough(c, log[i]))
    ensures LetThrough(c, log[i := call]) == LetThrough(c, log)
  {
    var n := |log| - 1;
    if i < n {
      assert log[i := call][..n] == log[..n][i := call];
      LetThroughStays(c, log[..n], i, call);
    } else {
      assert log[i := call][..n] == log[..n];
    }
  }

  lemma StepLetsThrough(c: Config, s: State, e: Event)
    requires Inv(c, s) && Enabled(s, e)
    ensures LetThrough(c, Apply(c, s, e).log) <= LetThrough(c, s.log) + if c.failClosed || NoError(e) then 0 else 1
  {
    var s' := Apply(c, s, e);
    if e.Expire? {
      assert Owes(s, s.log[e.call]);
      LetThroughStays(c, s.log, e.call, s'.log[e.call]);
    } else if e.Incr? {
      assert s'.log[..|s.log|] == s.log;
    }
  }

  lemma {:induction false} RunLetsThrough(c: Config, s: State, es: seq<Event>)
    requires Inv(c, s) && CanRun(c, s, es)
    ensures LetThrough(c, Run(c, s, es).log) <= LetThrough(c, s.log) + if c.failClosed then 0 else Errors(es)
    decreases |es|
  {
    if es != [] {
      StepLetsThrough(c, s, es[0]);
      StepKeepsInv(c, s, es[0]);
      RunLetsThrough(c, Apply(c, s, es[0]), es[1..]);
    }
  }

  /** The log, but for the calls that were let through. */
  function Counted(c: Config, log: seq<Call>): seq<Call> {
    seq(|log|, i requires 0 <= i < |log| =>
      if IsLetThrough(c, log[i]) then log[i].(fate := Denied) else log[i])
  }

  lemma {:induction false} PassesAreCounted(c: Config, log: seq<Call>, from: int, to: int)
    ensures PassesIn(log, from, to) <= PassesIn(Counted(c, log), from, to) + LetThrough(c, log)
  {
    if log != [] {
      var init := log[..|log| - 1];
      assert Counted(c, log)[..|init|] == Counted(c, init);
      PassesAreCounted(c, init, from, to);
    }
  }

  lemma CountedKeepsInv(c: Config, s: State)
    requires Inv(c, s)
    ensures var counted := s.(log := Counted(c, s.log)); Inv(c, counted) && WithinLimit(c, counted)
  {
    var counted := s.(log := Counted(c, s.log));
    forall i | 0 <= i < |s.log| && counted.log[i].value > 0 ensures InLife(counted, counted.log[i]) {
      assert InLife(s, s.log[i]);
    }
    forall i | 0 <= i < |s.log| && counted.log[i].fate == Owing ensures Owes(counted, counted.log[i]) {
      assert Owes(s, s.log[i]);
    }
  }

  /** In either mode and under any errors: 2 * limit - 1 passes in any interval of one TTL, and beyond them
      at most one for each failed command that fail-open mode forgives. */
  lemma WindowBoundWithErrors(c: Config, es: seq<Event>, a: int)
    requires c.Valid() && CanRun(c, INIT, es)
    ensures PassesIn(Run(c, INIT, es).log, a, a + c.ttl) <= 2 * c.limit - 1 + if c.failClosed then 0 else Errors(es)
    ensures PassesIn(Counted(c, Run(c, INIT, es).log), a, a + c.ttl) <= 2 * c.limit - 1
  {
    RunKeepsInv(c, INIT, es);
    RunLetsThrough(c, INIT, es);
    var s := Run(c, INIT, es);
    CountedKeepsInv(c, s);
    StateBound(c, s.(log := Counted(c, s.log)), a, 0);
    PassesAreCounted(c, s.log, a, a + c.ttl);
  }

  predicate Bounded(c: Config, es: seq<Event>, a: int) {
    CanRun(c, INIT, es) ==> PassesIn(Run(c, INIT, es).log, a, a + c.ttl) <= 2 * c.limit - 1
  }

  /** The bound holds of all runs exactly in fail-closed mode. */
  lemma BoundedIffFailClosed(c: Config)
    requires c.Valid()
    ensures c.failClosed <==> forall es, a :: Bounded(c, es, a)
  {
    if c.failClosed {
      forall es, a ensures Bounded(c, es, a) {
        if CanRun(c, INIT, es) {
          WindowBound(c, es, a, 0);
        }
      }
    } else {
      var es := FailOpenIsUnbounded(c, INIT, 2 * c.limit, c.ttl);
      assert !Bounded(c, es, 0);
    }
  }

  // ---------- the bound is met ----------

  lemma {:induction false} RunAppend(c: Config, s: State, es: seq<Event>, fs: seq<Event>)
    requires CanRun(c, s, es) && CanRun(c, Run(c, s, es), fs)
    ensures CanRun(c, s, es + fs) && Run(c, s, es + fs) == Run(c, Run(c, s, es), fs)
    decreases |es|
  {
    if es == [] {
      assert es + fs == fs;
    } else {
      assert (es + fs)[1..] == es[1..] + fs;
      RunAppend(c, Apply(c, s, es[0]), es[1..], fs);
    }
  }

  const INCR := Incr(true, true)

  function Burst(n: nat): seq<Event> {
    seq(n, _ => INCR)
  }

  /** n calls that all see the running counter. */
  lemma {:induction false} BurstPasses(c: Config, s: State, n: nat, from: int, to: int)
    requires s.counter.Live? && 1 <= s.counter.value && s.counter.value + n <= c.limit
    ensures CanRun(c, s, Burst(n)) && NoErrors(Burst(n))
    ensures var s' := Run(c, s, Burst(n));
      && s'.now == s.now && s'.births == s.births && |s'.log| == |s.log| + n
      && s'.counter == s.counter.(value := s.counter.value + n)
      && PassesIn(s'.log, from, to) == PassesIn(s.log, from, to) + if from <= s.now < to then n else 0
    decreases n
  {
    if n > 0 {
      var s1 := Apply(c, s, INCR);
      assert Burst(n)[1..] == Burst(n - 1);
      assert s1.log[..|s.log|] == s.log;
      BurstPasses(c, s1, n - 1, from, to);
    }
  }

  /** The first call of an incarnation, from its INCR to its EXPIRE. */
  function FirstCall(s: State): seq<Event> {
    [INCR, Expire(|s.log|, true, true)]
  }

  lemma FirstCallPasses(c: Config, s: State, from: int, to: int)
    requires c.Valid() && s.counter.Absent?
    ensures CanRun(c, s, FirstCall(s))
    ensures var s' := Run(c, s, FirstCall(s));
      && s'.now == s.now && |s'.log| == |s.log| + 1
      && s'.counter == Live(1, |s.births|, Some(s.now + c.ttl))
      && PassesIn(s'.log, from, to) == PassesIn(s.log, from, to) + if from <= s.now < to then 1 else 0
  {
    var s1 := Apply(c, s, INCR);
    var e := Expire(|s.log|, true, true);
    var s2 := Apply(c, s1, e);
    assert FirstCall(s)[1..] == [e];
    assert s2.log == s.log + [Call(s.now, |s.births|, 1, Passed)];
    assert s2.log[..|s.log|] == s.log;
    assert CanRun(c, s2, [e][1..]) && Run(c, s1, [e]) == s2;
  }

  /** With a TTL of at least two time units the bound of `WindowBound` is reached, without any error. */
  lemma WindowBoundIsMet(c: Config) returns (es: seq<Event>, a: int)
    requires c.Valid() && 2 <= c.ttl
    ensures CanRun(c, INIT, es) && NoErrors(es)
    ensures PassesIn(Run(c, INIT, es).log, a, a + c.ttl) == 2 * c.limit - 1
  {
    a := c.ttl - 1;
    var to := a + c.ttl;
    FirstCallPasses(c, INIT, a, to);
    es := FirstCall(INIT);
    var s := Run(c, INIT, es);

    es, s := Extend(c, es, s, [Tick(a)]);
    BurstPasses(c, s, c.limit - 1, a, to);
    es, s := Extend(c, es, s, Burst(c.limit - 1));
    es := SecondLife(c, es, s, a, to);
  }

  /** At time c.ttl the counter runs out, and `limit` more calls pass on the next one. */
  lemma SecondLife(c: Config, before: seq<Event>, s0: State, a: int, to: int) returns (es: seq<Event>)
    requires c.Valid() && CanRun(c, INIT, before) && NoErrors(before) && s0 == Run(c, INIT, before)
    requires s0.now <= c.ttl && s0.counter.Live? && s0.counter.expiry == Some(c.ttl) && a <= c.ttl < to
    ensures CanRun(c, INIT, es) && NoErrors(es)
    ensures PassesIn(Run(c, INIT, es).log, a, to) == PassesIn(s0.log, a, to) + c.limit
  {
    var s := s0;
    es, s := Extend(c, before, s, [Tick(c.ttl)]);
    es, s := Extend(c, es, s, [Evict]);
    FirstCallPasses(c, s, a, to);
    es, s := Extend(c, es, s, FirstCall(s));
    BurstPasses(c, s, c.limit - 1, a, to);
    es, s := Extend(c, es, s, Burst(c.limit - 1));
  }

  lemma Extend(c: Config, es: seq<Event>, s: State, fs: seq<Event>) returns (es': seq<Event>, s': State)
    requires CanRun(c, INIT, es) && NoErrors(es) && s == Run(c, INIT, es)
    requires CanRun(c, s, fs) && NoErrors(fs)
    ensures es' == es + fs && s' == Run(c, s, fs)
    ensures CanRun(c, INIT, es') && NoErrors(es') && s' == Run(c, INIT, es')
    ensures |fs| == 1 ==> s' == Apply(c, s, fs[0])
  {
    RunAppend(c, INIT, es, fs);
    es' := es + fs;
    s' := Run(c, s, fs);
    if |fs| == 1 {
      assert fs[1..] == [];
    }
  }

  /** Fail-open with errors has no bound at all: `Guarded` cannot be dropped from `WindowBound`. */
  lemma {:induction false} FailOpenIsUnbounded(c: Config, s: State, n: nat, to: int) returns (es: seq<Event>)
    requires !c.failClosed && s.now < to
    ensures CanRun(c, s, es) && Run(c, s, es).now == s.now
    ensures PassesIn(Run(c, s, es).log, s.now, to) == PassesIn(s.log, s.now, to) + n
    decreases n
  {
    if n == 0 {
      es := [];
    } else {
      var e := Incr(false, false);
      var s1 := Apply(c, s, e);
      assert s1.log[..|s.log|] == s.log;
      var fs := FailOpenIsUnbounded(c, s1, n - 1, to);
      es := [e] + fs;
      assert es[1..] == fs;
    }
  }

  // ---------- the owed EXPIRE ----------

  ghost predicate SomeoneOwes(s: State) {
    exists i :: 0 <= i < |s.log| && s.log[i].fate == Owing
  }

  /** A counter that no call will ever give an expiry. */
  ghost predicate Stranded(s: State) {
    s.counter.Live? && s.counter.expiry.None? && !SomeoneOwes(s)
  }

  /** The INCR that creates the counter takes effect without an answer, or an owed EXPIRE takes none. */
  predicate Strands(s: State, e: Event) {
    || (e.Incr? && !e.ok && e.applied && s.counter.Absent?)
    || (e.Expire? && !e.applied)
  }

  lemma StepStrandsIff(c: Config, s: State, e: Event)
    requires Inv(c, s) && !Stranded(s) && Enabled(s, e)
    ensures Stranded(Apply(c, s, e)) <==> Strands(s, e)
  {
    var s' := Apply(c, s, e);
    if e.Expire? {
      assert Owes(s, s.log[e.call]);
      forall i | 0 <= i < |s'.log| && s'.log[i].fate == Owing ensures false {
        OneOwes(c, s, i, e.call);
      }
    } else if e.Incr? {
      if s.counter.Absent? {
        assert forall i :: 0 <= i < |s.log| && s.log[i].fate == Owing ==> Owes(s, s.log[i]);
        assert s'.log[|s.log|].fate == Owing <==> e.applied && e.ok;
      } else if SomeoneOwes(s) {
        var i :| 0 <= i < |s.log| && s.log[i].fate == Owing;
        assert s'.log[i].fate == Owing;
      }
    } else {
      assert s'.log == s.log;
      assert SomeoneOwes(s') <==> SomeoneOwes(s);
    }
  }

  lemma OneOwes(c: Config, s: State, i: int, j: int)
    requires Inv(c, s) && 0 <= i < |s.log| && 0 <= j < |s.log|
    requires s.log[i].fate == Owing && s.log[j].fate == Owing
    ensures i == j
  {
    assert Owes(s, s.log[i]) && Owes(s, s.log[j]);
  }

  lemma StepStaysStranded(c: Config, s: State, e: Event)
    requires Inv(c, s) && Stranded(s) && Enabled(s, e)
    ensures Stranded(Apply(c, s, e)) && Apply(c, s, e).counter.life == s.counter.life
  {}

  /** Some step of the run strands the counter. */
  predicate StrandsAlong(c: Config, s: State, es: seq<Event>)
    requires CanRun(c, s, es)
    decreases |es|
  {
    es != [] && (Strands(s, es[0]) || StrandsAlong(c, Apply(c, s, es[0]), es[1..]))
  }

  lemma {:induction false} StrandedIff(c: Config, s: State, es: seq<Event>)
    requires Inv(c, s) && CanRun(c, s, es)
    ensures Stranded(Run(c, s, es)) <==> Stranded(s) || StrandsAlong(c, s, es)
    decreases |es|
  {
    if es != [] {
      var e := es[0];
      StepKeepsInv(c, s, e);
      if Stranded(s) {
        StepStaysStranded(c, s, e);
      } else {
        StepStrandsIff(c, s, e);
      }
      StrandedIff(c, Apply(c, s, e), es[1..]);
    }
  }

  /** In every run, with any errors: the counter is stranded exactly when some creating INCR took effect
      without an answer or some owed EXPIRE took none.  In all other runs a live counter without an expiry
      has exactly one call that owes it an EXPIRE; that call saw 1 in this very incarnation. */
  lemma ExpiryDebt(c: Config, es: seq<Event>)
    requires c.Valid() && CanRun(c, INIT, es)
    ensures var s := Run(c, INIT, es);
      && (Stranded(s) <==> StrandsAlong(c, INIT, es))
      && (s.counter.Live? && s.counter.expiry.None? && !StrandsAlong(c, INIT, es) ==>
            exists i :: 0 <= i < |s.log| && s.log[i].fate == Owing && s.log[i].value == 1
              && s.log[i].life == s.counter.life
              && forall j :: 0 <= j < |s.log| && s.log[j].fate == Owing ==> j == i)
  {
    RunKeepsInv(c, INIT, es);
    StrandedIff(c, INIT, es);
    var s := Run(c, INIT, es);
    if s.counter.Live? && s.counter.expiry.None? && !Stranded(s) {
      var i :| 0 <= i < |s.log| && s.log[i].fate == Owing;
      assert Owes(s, s.log[i]);
      forall j | 0 <= j < |s.log| && s.log[j].fate == Owing ensures j == i {
        OneOwes(c, s, i, j);
      }
    }
  }

  /** One failed EXPIRE strands the counter. */
  lemma LostExpire(c: Config)
    requires c.Valid()
    ensures var es := [INCR, Expire(0, false, false)];
      CanRun(c, INIT, es) && Stranded(Run(c, INIT, es))
  {
    var e := Expire(0, false, false);
    var s1 := Apply(c, INIT, INCR);
    var s2 := Apply(c, s1, e);
    assert [INCR, e][1..] == [e];
    assert CanRun(c, s2, [e][1..]) && Run(c, s1, [e]) == s2;
  }

  /** A stranded counter is never given up: it counts on in the same incarnation whatever happens later,
      so a later call passes only on one of the values the limit still leaves. */
  lemma {:induction false} StrandedForever(c: Config, s: State, es: seq<Event>)
    requires Stranded(s) && CanRun(c, s, es) && Guarded(c, es) && 1 <= s.counter.value
    ensures var s' := Run(c, s, es);
      && Stranded(s') && s'.counter.life == s.counter.life && s.counter.value <= s'.counter.value
      && |s.log| <= |s'.log| && s'.log[..|s.log|] == s.log
      && forall i :: |s.log| <= i < |s'.log| && s'.log[i].fate == Passed
           ==> s.counter.value < s'.log[i].value <= c.limit
    decreases |es|
  {
    if es != [] {
      var e := es[0];
      assert NoErrors(es) ==> NoError(e) && NoErrors(es[1..]);
      assert !e.Expire?;
      var s1 := Apply(c, s, e);
      assert forall i :: 0 <= i < |s.log| ==> s1.log[i] == s.log[i];
      StrandedForever(c, s1, es[1..]);
      var s' := Run(c, s, es);
      assert forall i :: 0 <= i < |s1.log| ==> s'.log[i] == s'.log[..|s1.log|][i];
    }
  }

  /** Once its limit is used up, a stranded counter refuses every call for ever. */
  lemma StrandedRefusesForever(c: Config, s: State, es: seq<Event>)
    requires Stranded(s) && CanRun(c, s, es) && Guarded(c, es)
    requires c.Valid() && c.limit <= s.counter.value
    ensures forall i :: |s.log| <= i < |Run(c, s, es).log| ==> Run(c, s, es).log[i].fate != Passed
  {
    StrandedForever(c, s, es);
  }

  // ---------- one call, as the code makes it ----------

  /** The steps of a call that no other call interrupts. */
  function CallEvents(s: State, incr: Reply, expire: Reply): seq<Event> {
    [Incr(incr.ok, incr.applied)]
    + if incr.ok && Bump(s).value == 1 then [Expire(|s.log|, expire.ok, expire.applied)] else []
  }

  /** The count an undisturbed call is given: the EXPIRE matters only to the call that sees 1. */
  function Answer(s: State, incr: Reply, expire: Reply): Option<int> {
    var n := Bump(s).value;
    if incr.ok && (n == 1 ==> expire.ok) then Some(n) else None
  }

  datatype Refusal = Unavailable | Exceeded

  /** The refusal of an undisturbed call whose commands get these replies. */
  function RefusalOf(c: Config, s: State, incr: Reply, expire: Reply): Option<Refusal> {
    match Answer(s, incr, expire)
    case Some(n) => if c.limit < n then Some(Exceeded) else None
    case None => if c.failClosed then Some(Unavailable) else None
  }

  /** The two refusals, from the replies and the count alone: the limiter is unavailable if fail-closed mode
      met a failed INCR or a failed EXPIRE of a new counter, and the limit is exceeded if the INCR was answered
      with more than it. */
  lemma RefusalIff(c: Config, s: State, incr: Reply, expire: Reply)
    requires Inv(c, s)
    ensures var r := RefusalOf(c, s, incr, expire);
      var first := s.counter.Absent?; var seen := if first then 0 else s.counter.value;
      && (r == Some(Unavailable) <==> c.failClosed && (!incr.ok || (first && !expire.ok)))
      && (r == Some(Exceeded) <==> incr.ok && c.limit <= seen)
  {}

  /** Whether the call made between two states passed. */
  predicate Passes(before: State, after: State) {
    |before.log| < |after.log| && after.log[|before.log|].fate == Passed
  }

  /** One undisturbed and decided call takes `before` to `after`. */
  predicate CallMade(c: Config, before: State, after: State, incr: Reply, expire: Reply) {
    var es := CallEvents(before, incr, expire);
    && CanRun(c, before, es)
    && after == Run(c, before, es)
    && |after.log| == |before.log| + 1
    && after.log[|before.log|].fate != Owing
  }
}
