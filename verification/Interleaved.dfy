/** The gateway's books when calls of Execute overlap: HTTP handlers and workers run it at the same time
    (internal/executor/executor.go:91-194).  A call takes its id, and then by itself, between steps of any
    other calls, saves its reject row, or runs its tool and counts the run, and at last saves its audit row. */
module Interleaved {
  import opened Wrappers
  import opened Store
  import opened Executor

  /** What a call does between taking its id and saving its audit. */
  datatype Kind = Rejects | Runs | Neither

  /** What a call writes, in rows and counters, if it comes to that. */
  datatype Owes = Owes(
    kind: Kind,
    audits: seq<Audit>,
    rejects: seq<Reject>,
    calls: multiset<(string, string)>,
    errors: multiset<(string, string)>)

  function KindOf(w: World): Kind {
    if WritesReject(w) then Rejects else if Allowed(w) then Runs else Neither
  }

  /** What Execute owes for call i, as `Executor` determines it from what the call meets. */
  function OwesOf(i: nat, req: Request, w: World): Owes {
    Owes(
      KindOf(w),
      if w.saveAudit.applied then [AuditRow(i, req, w)] else [],
      if w.saveReject.applied then RejectOf(req, w) else [],
      CallsCounted(w),
      ErrorsCounted(w))
  }

  /** How far a call is: `Ran` when its tool has come back, `Settled` when only its audit is left. */
  datatype Stage = Started | Ran | Settled | Saved

  datatype Entry = Entry(req: Request, w: World, owes: Owes, stage: Stage)

  /** Call i has call id i: NewID gives fresh ids. */
  datatype Desk = Desk(calls: seq<Entry>, book: Ledger)

  const EMPTY := Desk([], Ledger([], [], 0, multiset{}, multiset{}))

  datatype Step =
    | Start(req: Request, w: World)
    | SaveReject(call: nat)
    | RunTool(call: nat)
    | Count(call: nat)
    | SaveAudit(call: nat)

  predicate Enabled(d: Desk, e: Step) {
    match e
    case Start(_, w) => w.saveReject.Valid() && w.saveAudit.Valid()
    case SaveReject(i) => i < |d.calls| && d.calls[i].stage == Started && d.calls[i].owes.kind == Rejects
    case RunTool(i) => i < |d.calls| && d.calls[i].stage == Started && d.calls[i].owes.kind == Runs
    case Count(i) => i < |d.calls| && d.calls[i].stage == Ran
    case SaveAudit(i) =>
      i < |d.calls|
      && (d.calls[i].stage == Settled || (d.calls[i].stage == Started && d.calls[i].owes.kind == Neither))
  }

  /** What one step adds to the books. */
  datatype Payment = Payment(
    audits: seq<Audit>,
    rejects: seq<Reject>,
    runs: multiset<nat>,
    calls: multiset<(string, string)>,
    errors: multiset<(string, string)>)

  const NOTHING := Payment([], [], multiset{}, multiset{}, multiset{})

  function PaymentOf(d: Desk, e: Step): Payment
    requires Enabled(d, e)
  {
    match e
    case Start(_, _) => NOTHING
    case SaveReject(i) => NOTHING.(rejects := d.calls[i].owes.rejects)
    case RunTool(i) => NOTHING.(runs := multiset{i})
    case Count(i) => NOTHING.(calls := d.calls[i].owes.calls, errors := d.calls[i].owes.errors)
    case SaveAudit(i) => NOTHING.(audits := d.calls[i].owes.audits)
  }

  function Enter(book: Ledger, p: Payment): Ledger {
    Ledger(book.calls + p.audits, book.rejects + p.rejects, book.toolRuns + |p.runs|,
           book.toolCalls + p.calls, book.toolErrors + p.errors)
  }

  function SetStage(calls: seq<Entry>, i: nat, stage: Stage): seq<Entry>
    requires i < |calls|
  {
    calls[i := calls[i].(stage := stage)]
  }

  function Apply(d: Desk, e: Step): Desk
    requires Enabled(d, e)
  {
    Desk(match e
         case Start(req, w) => d.calls + [Entry(req, w, OwesOf(|d.calls|, req, w), Started)]
         case SaveReject(i) => SetStage(d.calls, i, Settled)
         case RunTool(i) => SetStage(d.calls, i, Ran)
         case Count(i) => SetStage(d.calls, i, Settled)
         case SaveAudit(i) => SetStage(d.calls, i, Saved),
         Enter(d.book, PaymentOf(d, e)))
  }

  predicate CanRun(d: Desk, es: seq<Step>)
    decreases |es|
  {
    es != [] ==> Enabled(d, es[0]) && CanRun(Apply(d, es[0]), es[1..])
  }

  function Run(d: Desk, es: seq<Step>): Desk
    requires CanRun(d, es)
    decreases |es|
  {
    if es == [] then d else Run(Apply(d, es[0]), es[1..])
  }

  // ---------- what has fallen due ----------

  function AuditDue(i: nat, c: Entry): multiset<Audit> {
    if c.stage == Saved then multiset(c.owes.audits) else multiset{}
  }

  function RejectDue(i: nat, c: Entry): multiset<Reject> {
    if c.stage != Started then multiset(c.owes.rejects) else multiset{}
  }

  /** The id of a call whose tool has run. */
  function RunDue(i: nat, c: Entry): multiset<nat> {
    if c.stage != Started && c.owes.kind == Runs then multiset{i} else multiset{}
  }

  predicate IsCounted(c: Entry) {
    c.stage == Settled || c.stage == Saved
  }

  function CallDue(i: nat, c: Entry): multiset<(string, string)> {
    if IsCounted(c) then c.owes.calls else multiset{}
  }

  function ErrorDue(i: nat, c: Entry): multiset<(string, string)> {
    if IsCounted(c) then c.owes.errors else multiset{}
  }

  function Sum<T>(due: (nat, Entry) -> multiset<T>, calls: seq<Entry>): multiset<T> {
    if calls == [] then multiset{}
    else Sum(due, calls[..|calls| - 1]) + due(|calls| - 1, calls[|calls| - 1])
  }

  /** The books hold what the calls made so far owe them, no more and no less; calls in flight included. */
  predicate Balanced(d: Desk) {
    && multiset(d.book.calls) == Sum(AuditDue, d.calls)
    && multiset(d.book.rejects) == Sum(RejectDue, d.calls)
    && d.book.toolRuns == |Sum(RunDue, d.calls)|
    && d.book.toolCalls == Sum(CallDue, d.calls)
    && d.book.toolErrors == Sum(ErrorDue, d.calls)
  }

  /** A row's call has saved it, and no other row has its call id. */
  predicate OwnRows(d: Desk) {
    && (forall k :: 0 <= k < |d.book.calls| ==>
          d.book.calls[k].callID < |d.calls| && d.calls[d.book.calls[k].callID].stage == Saved)
    && (forall j, k :: 0 <= j < k < |d.book.calls| ==> d.book.calls[j].callID != d.book.calls[k].callID)
  }

  /** A call owes only what calls of its kind write, and is at a stage that they reach. */
  predicate Sane(i: nat, c: Entry) {
    && (c.owes.kind != Rejects ==> c.owes.rejects == [])
    && (c.owes.kind != Runs ==> c.owes.calls == multiset{} && c.owes.errors == multiset{})
    && (c.stage == Ran ==> c.owes.kind == Runs)
    && (c.stage == Settled ==> c.owes.kind != Neither)
    && |c.owes.audits| <= 1
    && (c.owes.audits != [] ==> c.owes.audits[0].callID == i)
  }

  predicate AllSane(calls: seq<Entry>) {
    forall i :: 0 <= i < |calls| ==> Sane(i, calls[i])
  }

  predicate Inv(d: Desk) {
    Balanced(d) && OwnRows(d) && AllSane(d.calls)
  }

  lemma SumSnoc<T>(due: (nat, Entry) -> multiset<T>, calls: seq<Entry>, c: Entry)
    ensures Sum(due, calls + [c]) == Sum(due, calls) + due(|calls|, c)
  {
    assert (calls + [c])[..|calls|] == calls;
  }

  lemma {:induction false} SumUpdate<T>(due: (nat, Entry) -> multiset<T>, calls: seq<Entry>, i: nat, c: Entry,
                                        more: multiset<T>)
    requires i < |calls| && due(i, c) == due(i, calls[i]) + more
    ensures Sum(due, calls[i := c]) == Sum(due, calls) + more
  {
    var n := |calls| - 1;
    if i < n {
      assert calls[i := c][..n] == calls[..n][i := c];
      SumUpdate(due, calls[..n], i, c, more);
    } else {
      assert calls[i := c][..n] == calls[..n];
    }
  }

  lemma StartKeepsBalance(d: Desk, c: Entry)
    requires Balanced(d) && c.stage == Started
    ensures Balanced(d.(calls := d.calls + [c]))
  {
    SumSnoc(AuditDue, d.calls, c);
    SumSnoc(RejectDue, d.calls, c);
    SumSnoc(RunDue, d.calls, c);
    SumSnoc(CallDue, d.calls, c);
    SumSnoc(ErrorDue, d.calls, c);
  }

  /** The payment is what falls due when call i moves on to `stage`. */
  predicate Pays(i: nat, c: Entry, stage: Stage, p: Payment) {
    var c' := c.(stage := stage);
    && AuditDue(i, c') == AuditDue(i, c) + multiset(p.audits)
    && RejectDue(i, c') == RejectDue(i, c) + multiset(p.rejects)
    && RunDue(i, c') == RunDue(i, c) + p.runs
    && CallDue(i, c') == CallDue(i, c) + p.calls
    && ErrorDue(i, c') == ErrorDue(i, c) + p.errors
  }

  lemma PaymentBalances(d: Desk, i: nat, stage: Stage, p: Payment)
    requires Balanced(d) && i < |d.calls| && Pays(i, d.calls[i], stage, p)
    ensures Balanced(Desk(SetStage(d.calls, i, stage), Enter(d.book, p)))
  {
    var c' := d.calls[i].(stage := stage);
    SumUpdate(AuditDue, d.calls, i, c', multiset(p.audits));
    SumUpdate(RejectDue, d.calls, i, c', multiset(p.rejects));
    SumUpdate(RunDue, d.calls, i, c', p.runs);
    SumUpdate(CallDue, d.calls, i, c', p.calls);
    SumUpdate(ErrorDue, d.calls, i, c', p.errors);
  }

  lemma RejectPays(i: nat, c: Entry)
    requires Sane(i, c) && c.stage == Started && c.owes.kind == Rejects
    ensures Pays(i, c, Settled, NOTHING.(rejects := c.owes.rejects))
  {}

  lemma RunPays(i: nat, c: Entry)
    requires Sane(i, c) && c.stage == Started && c.owes.kind == Runs
    ensures Pays(i, c, Ran, NOTHING.(runs := multiset{i}))
  {}

  lemma CountPays(i: nat, c: Entry)
    requires Sane(i, c) && c.stage == Ran
    ensures Pays(i, c, Settled, NOTHING.(calls := c.owes.calls, errors := c.owes.errors))
  {}

  lemma AuditPays(i: nat, c: Entry)
    requires Sane(i, c) && (c.stage == Settled || (c.stage == Started && c.owes.kind == Neither))
    ensures Pays(i, c, Saved, NOTHING.(audits := c.owes.audits))
  {}

  lemma NothingEntered(d: Desk)
    ensures d.(book := Enter(d.book, NOTHING)) == d
  {}

  lemma StepKeepsBalance(d: Desk, e: Step)
    requires Inv(d) && Enabled(d, e)
    ensures Balanced(Apply(d, e))
  {
    match e
    case Start(req, w) =>
      NothingEntered(d);
      StartKeepsBalance(d, Entry(req, w, OwesOf(|d.calls|, req, w), Started));
    case SaveReject(i) =>
      RejectPays(i, d.calls[i]);
      PaymentBalances(d, i, Settled, PaymentOf(d, e));
    case RunTool(i) =>
      RunPays(i, d.calls[i]);
      PaymentBalances(d, i, Ran, PaymentOf(d, e));
    case Count(i) =>
      CountPays(i, d.calls[i]);
      PaymentBalances(d, i, Settled, PaymentOf(d, e));
    case SaveAudit(i) =>
      AuditPays(i, d.calls[i]);
      PaymentBalances(d, i, Saved, PaymentOf(d, e));
  }

  lemma RowsStay(d: Desk, calls': seq<Entry>)
    requires OwnRows(d) && |d.calls| <= |calls'|
    requires forall i :: 0 <= i < |d.calls| && d.calls[i].stage == Saved ==> calls'[i].stage == Saved
    ensures OwnRows(d.(calls := calls'))
  {}

  lemma NewRows(d: Desk, i: nat, rows: seq<Audit>, book: Ledger)
    requires OwnRows(d) && i < |d.calls| && d.calls[i].stage != Saved
    requires |rows| <= 1 && (rows != [] ==> rows[0].callID == i) && book.calls == d.book.calls + rows
    ensures OwnRows(Desk(SetStage(d.calls, i, Saved), book))
  {
    assert forall k :: 0 <= k < |d.book.calls| ==> book.calls[k] == d.book.calls[k] && d.book.calls[k].callID != i;
  }

  lemma StepKeepsRows(d: Desk, e: Step)
    requires Inv(d) && Enabled(d, e)
    ensures OwnRows(Apply(d, e))
  {
    var d' := Apply(d, e);
    if e.SaveAudit? {
      assert Sane(e.call, d.calls[e.call]);
      NewRows(d, e.call, d.calls[e.call].owes.audits, d'.book);
    } else {
      assert d'.book.calls == d.book.calls;
      RowsStay(d, d'.calls);
      assert OwnRows(d.(calls := d'.calls));
    }
  }

  lemma OwesAreSane(i: nat, req: Request, w: World)
    ensures Sane(i, Entry(req, w, OwesOf(i, req, w), Started))
  {}

  lemma StepKeepsSane(d: Desk, e: Step)
    requires AllSane(d.calls) && Enabled(d, e)
    ensures AllSane(Apply(d, e).calls)
  {
    if e.Start? {
      OwesAreSane(|d.calls|, e.req, e.w);
    }
  }

  lemma StepKeepsInv(d: Desk, e: Step)
    requires Inv(d) && Enabled(d, e)
    ensures Inv(Apply(d, e))
  {
    StepKeepsBalance(d, e);
    StepKeepsRows(d, e);
    StepKeepsSane(d, e);
  }

  /** In every interleaving of any calls, with any answers of the store, the books balance at every moment. */
  lemma {:induction false} RunKeepsInv(d: Desk, es: seq<Step>)
    requires Inv(d) && CanRun(d, es)
    ensures Inv(Run(d, es))
    decreases |es|
  {
    if es != [] {
      StepKeepsInv(d, es[0]);
      RunKeepsInv(Apply(d, es[0]), es[1..]);
    }
  }

  // ---------- the books over a run ----------

  /** The call owes what `Executor` says it does. */
  predicate IsAsExecuted(i: nat, c: Entry) {
    c.owes == OwesOf(i, c.req, c.w)
  }

  predicate AsExecuted(calls: seq<Entry>) {
    forall i :: 0 <= i < |calls| ==> IsAsExecuted(i, calls[i])
  }

  lemma StageStaysAsExecuted(calls: seq<Entry>, i: nat, stage: Stage)
    requires i < |calls| && AsExecuted(calls)
    ensures AsExecuted(SetStage(calls, i, stage))
  {
    assert IsAsExecuted(i, calls[i]);
  }

  lemma StepIsAsExecuted(d: Desk, e: Step)
    requires AsExecuted(d.calls) && Enabled(d, e)
    ensures AsExecuted(Apply(d, e).calls)
  {
    match e
    case Start(req, w) => assert IsAsExecuted(|d.calls|, Entry(req, w, OwesOf(|d.calls|, req, w), Started));
    case SaveReject(i) => StageStaysAsExecuted(d.calls, i, Settled);
    case RunTool(i) => StageStaysAsExecuted(d.calls, i, Ran);
    case Count(i) => StageStaysAsExecuted(d.calls, i, Settled);
    case SaveAudit(i) => StageStaysAsExecuted(d.calls, i, Saved);
  }

  lemma {:induction false} RunIsAsExecuted(d: Desk, es: seq<Step>)
    requires AsExecuted(d.calls) && CanRun(d, es)
    ensures AsExecuted(Run(d, es).calls)
    decreases |es|
  {
    if es != [] {
      StepIsAsExecuted(d, es[0]);
      RunIsAsExecuted(Apply(d, es[0]), es[1..]);
    }
  }

  function HowMany(p: Entry -> bool, calls: seq<Entry>): nat {
    if calls == [] then 0 else HowMany(p, calls[..|calls| - 1]) + if p(calls[|calls| - 1]) then 1 else 0
  }

  lemma {:induction false} SumSize<T>(due: (nat, Entry) -> multiset<T>, p: Entry -> bool, calls: seq<Entry>)
    requires forall i :: 0 <= i < |calls| ==> |due(i, calls[i])| == if p(calls[i]) then 1 else 0
    ensures |Sum(due, calls)| == HowMany(p, calls)
  {
    if calls != [] {
      SumSize(due, p, calls[..|calls| - 1]);
    }
  }

  lemma {:induction false} SumMember<T>(due: (nat, Entry) -> multiset<T>, calls: seq<Entry>, x: T)
    ensures x in Sum(due, calls) <==> exists i :: 0 <= i < |calls| && x in due(i, calls[i])
  {
    if calls != [] {
      var init := calls[..|calls| - 1];
      SumMember(due, init, x);
      assert forall i :: 0 <= i < |init| ==> init[i] == calls[i];
    }
  }

  predicate HasRun(c: Entry) {
    Allowed(c.w) && c.stage != Started
  }

  predicate HasCounted(c: Entry) {
    Allowed(c.w) && IsCounted(c)
  }

  predicate HasReject(c: Entry) {
    WritesReject(c.w) && c.stage != Started && c.w.saveReject.applied
  }

  /** Only call i owes a row with call id i. */
  lemma RowIsDue(d: Desk, i: nat, row: Audit)
    requires Balanced(d) && AllSane(d.calls) && i < |d.calls| && row.callID == i
    ensures row in d.book.calls <==> row in AuditDue(i, d.calls[i])
  {
    assert row in d.book.calls <==> row in multiset(d.book.calls);
    SumMember(AuditDue, d.calls, row);
    forall j | 0 <= j < |d.calls| && row in AuditDue(j, d.calls[j]) ensures j == i {
      DueIsOwn(j, d.calls[j], row);
    }
  }

  lemma DueIsOwn(j: nat, c: Entry, row: Audit)
    requires Sane(j, c) && row in AuditDue(j, c)
    ensures row.callID == j
  {}

  lemma RowOwed(i: nat, c: Entry)
    requires IsAsExecuted(i, c)
    ensures AuditRow(i, c.req, c.w) in AuditDue(i, c) <==> c.stage == Saved && c.w.saveAudit.applied
  {}

  lemma AuditOfCall(d: Desk, i: nat)
    requires Inv(d) && AsExecuted(d.calls) && i < |d.calls|
    ensures AuditRow(i, d.calls[i].req, d.calls[i].w) in d.book.calls
       <==> d.calls[i].stage == Saved && d.calls[i].w.saveAudit.applied
  {
    var c := d.calls[i];
    RowIsDue(d, i, AuditRow(i, c.req, c.w));
    RowOwed(i, c);
  }

  lemma OwesSizes(i: nat, c: Entry)
    requires c.owes == OwesOf(i, c.req, c.w)
    ensures |RunDue(i, c)| == if HasRun(c) then 1 else 0
    ensures |CallDue(i, c)| == if HasCounted(c) then 1 else 0
    ensures |RejectDue(i, c)| == if HasReject(c) then 1 else 0
  {}

  lemma Sizes(d: Desk)
    requires Inv(d) && AsExecuted(d.calls)
    ensures d.book.toolRuns == HowMany(HasRun, d.calls)
    ensures |d.book.toolCalls| == HowMany(HasCounted, d.calls)
    ensures |d.book.rejects| == HowMany(HasReject, d.calls)
  {
    forall i | 0 <= i < |d.calls|
      ensures |RunDue(i, d.calls[i])| == if HasRun(d.calls[i]) then 1 else 0
      ensures |CallDue(i, d.calls[i])| == if HasCounted(d.calls[i]) then 1 else 0
      ensures |RejectDue(i, d.calls[i])| == if HasReject(d.calls[i]) then 1 else 0
    {
      assert IsAsExecuted(i, d.calls[i]);
      OwesSizes(i, d.calls[i]);
    }
    SumSize(RunDue, HasRun, d.calls);
    SumSize(CallDue, HasCounted, d.calls);
    SumSize(RejectDue, HasReject, d.calls);
    assert |d.book.rejects| == |multiset(d.book.rejects)|;
  }

  /** At every moment of every run of overlapping calls, with any answers of the store: no two audit rows have
      one call id; a call's row, with its id, outcome and error, is there exactly once it has been saved with
      effect; and the rows, reject rows, tool runs and counters are those of the calls that got that far. */
  lemma InterleavedLedger(es: seq<Step>)
    requires CanRun(EMPTY, es)
    ensures var d := Run(EMPTY, es);
      && Balanced(d) && OwnRows(d)
      && (forall i :: 0 <= i < |d.calls| ==>
            (AuditRow(i, d.calls[i].req, d.calls[i].w) in d.book.calls
             <==> d.calls[i].stage == Saved && d.calls[i].w.saveAudit.applied))
      && d.book.toolRuns == HowMany(HasRun, d.calls)
      && |d.book.toolCalls| == HowMany(HasCounted, d.calls)
      && |d.book.rejects| == HowMany(HasReject, d.calls)
  {
    RunKeepsInv(EMPTY, es);
    RunIsAsExecuted(EMPTY, es);
    var d := Run(EMPTY, es);
    Sizes(d);
    forall i | 0 <= i < |d.calls|
      ensures AuditRow(i, d.calls[i].req, d.calls[i].w) in d.book.calls
         <==> d.calls[i].stage == Saved && d.calls[i].w.saveAudit.applied
    {
      AuditOfCall(d, i);
    }
  }

  predicate WasAllowed(c: Entry) {
    DecisionOf(c.w) == "allowed"
  }

  predicate WasRejected(c: Entry) {
    DecisionOf(c.w) == "rejected"
  }

  lemma {:induction false} SameCount(p: Entry -> bool, q: Entry -> bool, calls: seq<Entry>)
    requires forall i :: 0 <= i < |calls| ==> (p(calls[i]) <==> q(calls[i]))
    ensures HowMany(p, calls) == HowMany(q, calls)
  {
    if calls != [] {
      SameCount(p, q, calls[..|calls| - 1]);
    }
  }

  lemma {:induction false} AllCounted(p: Entry -> bool, calls: seq<Entry>)
    requires forall i :: 0 <= i < |calls| ==> p(calls[i])
    ensures HowMany(p, calls) == |calls|
  {
    if calls != [] {
      AllCounted(p, calls[..|calls| - 1]);
    }
  }

  lemma SavedRow(i: nat, c: Entry)
    requires c.owes == OwesOf(i, c.req, c.w) && c.stage == Saved && NoStoreFault(c.w) && Reasoned(c.w)
    ensures |AuditDue(i, c)| == 1
    ensures HasRun(c) <==> WasAllowed(c)
    ensures HasCounted(c) <==> WasAllowed(c)
    ensures HasReject(c) <==> WasRejected(c)
  {}

  /** When all calls have returned and the store did not fail: one audit row for each call, one reject row for
      each rejected call, and as many tool runs and counted tool calls as calls decided "allowed". */
  lemma AllReturned(es: seq<Step>)
    requires CanRun(EMPTY, es)
    requires forall c :: c in Run(EMPTY, es).calls ==> c.stage == Saved && NoStoreFault(c.w) && Reasoned(c.w)
    ensures var d := Run(EMPTY, es);
      && |d.book.calls| == |d.calls|
      && |d.book.rejects| == HowMany(WasRejected, d.calls)
      && d.book.toolRuns == |d.book.toolCalls| == HowMany(WasAllowed, d.calls)
  {
    RunKeepsInv(EMPTY, es);
    RunIsAsExecuted(EMPTY, es);
    var d := Run(EMPTY, es);
    Sizes(d);
    forall i | 0 <= i < |d.calls|
      ensures |AuditDue(i, d.calls[i])| == 1
      ensures HasRun(d.calls[i]) <==> WasAllowed(d.calls[i])
      ensures HasCounted(d.calls[i]) <==> WasAllowed(d.calls[i])
      ensures HasReject(d.calls[i]) <==> WasRejected(d.calls[i])
    {
      assert IsAsExecuted(i, d.calls[i]);
      SavedRow(i, d.calls[i]);
    }
    SumSize(AuditDue, _ => true, d.calls);
    AllCounted(_ => true, d.calls);
    assert |d.book.calls| == |multiset(d.book.calls)|;
    SameCount(HasRun, WasAllowed, d.calls);
    SameCount(HasCounted, WasAllowed, d.calls);
    SameCount(HasReject, WasRejected, d.calls);
  }

  // ---------- the code of one call ----------

  /** The steps of a call that nothing interrupts. */
  function CallSteps(i: nat, req: Request, w: World): seq<Step> {
    [Start(req, w)] + Rest(i, KindOf(w))
  }

  function Rest(i: nat, kind: Kind): seq<Step> {
    match kind
    case Rejects => [SaveReject(i)] + [SaveAudit(i)]
    case Runs => [RunTool(i)] + ([Count(i)] + [SaveAudit(i)])
    case Neither => [SaveAudit(i)]
  }

  lemma RunCons(d: Desk, e: Step, es: seq<Step>)
    requires Enabled(d, e) && CanRun(Apply(d, e), es)
    ensures CanRun(d, [e] + es) && Run(d, [e] + es) == Run(Apply(d, e), es)
  {
    assert ([e] + es)[1..] == es;
  }

  lemma SaveRuns(d: Desk, i: nat)
    requires Enabled(d, SaveAudit(i))
    ensures CanRun(d, [SaveAudit(i)]) && Run(d, [SaveAudit(i)]) == Apply(d, SaveAudit(i))
  {
    assert [SaveAudit(i)] + [] == [SaveAudit(i)];
    RunCons(d, SaveAudit(i), []);
  }

  lemma EnterNext(book: Ledger, p: Payment, audits: seq<Audit>)
    requires p.audits == []
    ensures Enter(Enter(book, p), NOTHING.(audits := audits)) == Enter(book, p.(audits := audits))
  {
    assert book.calls + [] + audits == book.calls + audits;
    assert book.rejects + p.rejects + [] == book.rejects + p.rejects;
  }

  lemma RejectRuns(d: Desk, i: nat)
    requires i < |d.calls| && d.calls[i].stage == Started && d.calls[i].owes.kind == Rejects
    ensures var es := Rest(i, Rejects); var owes := d.calls[i].owes;
      CanRun(d, es) && Run(d, es).book == Enter(d.book, NOTHING.(rejects := owes.rejects, audits := owes.audits))
  {
    SaveRuns(Apply(d, SaveReject(i)), i);
    RunCons(d, SaveReject(i), [SaveAudit(i)]);
    EnterNext(d.book, NOTHING.(rejects := d.calls[i].owes.rejects), d.calls[i].owes.audits);
  }

  lemma CountRuns(d: Desk, i: nat)
    requires i < |d.calls| && d.calls[i].stage == Ran
    ensures var es := [Count(i)] + [SaveAudit(i)]; var owes := d.calls[i].owes;
      && CanRun(d, es)
      && Run(d, es).book == Enter(d.book, NOTHING.(calls := owes.calls, errors := owes.errors, audits := owes.audits))
  {
    SaveRuns(Apply(d, Count(i)), i);
    RunCons(d, Count(i), [SaveAudit(i)]);
    EnterNext(d.book, NOTHING.(calls := d.calls[i].owes.calls, errors := d.calls[i].owes.errors),
              d.calls[i].owes.audits);
  }

  lemma ToolRuns(d: Desk, i: nat)
    requires i < |d.calls| && d.calls[i].stage == Started && d.calls[i].owes.kind == Runs
    ensures var es := Rest(i, Runs); var owes := d.calls[i].owes;
      CanRun(d, es) && Run(d, es).book == Enter(d.book, Payment(owes.audits, [], multiset{i}, owes.calls, owes.errors))
  {
    var d1 := Apply(d, RunTool(i));
    CountRuns(d1, i);
    RunCons(d, RunTool(i), [Count(i)] + [SaveAudit(i)]);
    assert d.book.calls + [] == d.book.calls && d.book.rejects + [] == d.book.rejects;
  }

  /** The middle and the end of a call, once it is started. */
  lemma RestRuns(d: Desk, i: nat)
    requires i < |d.calls| && d.calls[i].stage == Started
    ensures var es := Rest(i, d.calls[i].owes.kind);
      CanRun(d, es) && Run(d, es).book == Enter(d.book, WholePayment(i, d.calls[i].owes))
  {
    match d.calls[i].owes.kind
    case Rejects => RejectRuns(d, i);
    case Runs => ToolRuns(d, i);
    case Neither => SaveRuns(d, i);
  }

  /** What a call pays in all. */
  function WholePayment(i: nat, owes: Owes): Payment {
    Payment(owes.audits,
            if owes.kind == Rejects then owes.rejects else [],
            if owes.kind == Runs then multiset{i} else multiset{},
            if owes.kind == Runs then owes.calls else multiset{},
            if owes.kind == Runs then owes.errors else multiset{})
  }

  lemma EnteredPays(i: nat, req: Request, w: World, resp: Response, err: Option<string>, before: Ledger, after: Ledger)
    requires resp.callID == i && Entered(req, w, resp, err, before, after)
    ensures after == Enter(before, WholePayment(i, OwesOf(i, req, w)))
  {}

  /** What Execute adds to the books is what its steps add: the contract of GatewayExecutor.Execute describes
      one call of this relation that no other interrupts. */
  lemma ExecuteIsSteps(d: Desk, req: Request, w: World, resp: Response, err: Option<string>, after: Ledger)
    requires Enabled(d, Start(req, w)) && resp.callID == |d.calls|
    requires Entered(req, w, resp, err, d.book, after)
    ensures var es := CallSteps(|d.calls|, req, w);
      CanRun(d, es) && Run(d, es).book == after
  {
    var i := |d.calls|;
    var d1 := Apply(d, Start(req, w));
    NothingEntered(d);
    RestRuns(d1, i);
    RunCons(d, Start(req, w), Rest(i, KindOf(w)));
    EnteredPays(i, req, w, resp, err, d.book, after);
  }
}
