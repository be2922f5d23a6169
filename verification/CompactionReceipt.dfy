/** The context-compaction receipt: a staged audit record that only moves forward. */
module CompactionReceipt {
  import opened Prelude
  import opened Text

  const SCHEMA_VERSION := 1

  function SatSub(a: U64, b: U64): U64 {
    if a >= b then a - b else 0
  }

  datatype Status = InProgress | Applied | Refreshed | Failed | Cancelled | Interrupted

  datatype Stage = Planned | Preparing | Generating | Committing | Completed {
    function Rank(): nat {
      match this case Planned => 0 case Preparing => 1 case Generating => 2 case Committing => 3 case Completed => 4
    }
  }

  /** Token and prefix facts frozen when the receipt begins. */
  datatype Plan = Plan(contextRevision: string, persistentRevision: string, sourceTokens: U64, retainedTokens: U64,
                       targetTokens: U64, expectedReclaimed: U64, atomicUnits: nat,
                       previousSummary: Option<string>, coveredThrough: string, cursorValid: bool)

  datatype Identity = Identity(schemaVersion: nat, operationId: string, runId: string, conversationId: string,
                               assistantMessageId: string, requestIndex: U64, attemptIndex: U64,
                               modelConfigId: Option<string>, model: string, sourceName: Option<string>,
                               targetName: Option<string>, apiStyle: nat, startedAt: int)

  datatype Outcome = Outcome(summaryId: string, sourceTokens: U64, replacementTokens: U64, reclaimedTokens: U64)

  /** What the record keeps of an error. */
  datatype ReceiptError = ReceiptError(code: Option<string>, message: string)

  /** An error as it arrives; `text` is its full message. */
  datatype Failure = Failure(cancelled: bool, code: Option<string>, text: string)

  datatype Receipt = Receipt(identity: Identity, plan: Plan, status: Status, stage: Stage,
                             sourceRevision: Option<string>, observationId: Option<string>,
                             summaryId: Option<string>, outcome: Option<Outcome>, error: Option<ReceiptError>,
                             updatedAt: int, completedAt: Option<int>)

  /** The durable prefix handed to `attach_prepared_prefix`. */
  datatype Prefix = Prefix(conversationId: string, sourceRevision: string, coveredThrough: string,
                           previousSummary: Option<string>)

  datatype Draft = Draft(id: string, sourceRevision: string, sourceTokens: U64, replacementTokens: U64)

  /** A model request observation; `valid` is its own validation. */
  datatype Observation = Observation(id: string, valid: bool, compaction: bool, operationId: Option<string>,
                                     runId: string, conversationId: Option<string>, assistantMessageId: Option<string>,
                                     model: string, apiStyle: nat, completed: bool)

  predicate NameOk(s: string) {
    !Blank(s) && Trimmed(s) && Utf8Len(s) <= 512
  }

  predicate PlanValid(p: Plan) {
    p.cursorValid && !Blank(p.contextRevision) && !Blank(p.persistentRevision)
    && p.sourceTokens != 0 && p.targetTokens < p.sourceTokens
    && p.expectedReclaimed == SatSub(SatSub(p.sourceTokens, p.targetTokens), p.retainedTokens)
    && p.retainedTokens <= SatSub(p.sourceTokens, p.targetTokens)
    && p.atomicUnits != 0
  }

  predicate IdentityValid(i: Identity) {
    i.schemaVersion == SCHEMA_VERSION
    && !Blank(i.operationId) && !Blank(i.runId) && !Blank(i.conversationId) && !Blank(i.assistantMessageId)
    && !Blank(i.model)
    && (i.modelConfigId.Some? ==> NameOk(i.modelConfigId.value))
    && (match (i.sourceName, i.targetName)
        case (Some(a), Some(b)) => NameOk(a) && NameOk(b)
        case (None, None) => true
        case _ => false)
    && i.requestIndex != 0 && i.attemptIndex != 0 && i.startedAt >= 0
  }

  predicate StageValid(r: Receipt) {
    (r.stage.Rank() < 2 ==> r.sourceRevision.None?) && (r.stage.Rank() >= 2 ==> r.sourceRevision.Some?)
    && (r.stage.Completed? ==> r.status.Applied?)
  }

  predicate StatusValid(r: Receipt) {
    match r.status
    case InProgress => r.error.None? && r.outcome.None? && r.summaryId.None? && r.observationId.None?
    case Applied =>
      r.outcome.Some? && r.stage.Completed? && r.summaryId == Some(r.outcome.value.summaryId)
      && r.observationId.Some? && r.sourceRevision.Some? && r.error.None?
      && r.outcome.value.sourceTokens == r.plan.sourceTokens
      && r.outcome.value.replacementTokens < r.outcome.value.sourceTokens
      && r.outcome.value.reclaimedTokens == SatSub(r.outcome.value.sourceTokens, r.outcome.value.replacementTokens)
    case Refreshed => r.outcome.None? && r.summaryId.None? && r.error.None?
    case _ => r.error.Some? && r.outcome.None? && r.summaryId.None?
  }

  predicate Terminal(s: Status) {
    !s.InProgress?
  }

  /** `validate`. */
  predicate Valid(r: Receipt) {
    IdentityValid(r.identity) && PlanValid(r.plan) && r.updatedAt >= r.identity.startedAt
    && StageValid(r)
    && (Terminal(r.status) <==> r.completedAt.Some? && r.completedAt.value >= r.identity.startedAt)
    && StatusValid(r)
  }

  predicate ObservationFits(r: Receipt, o: Observation) {
    o.valid && o.compaction && o.operationId == Some(r.identity.operationId) && o.runId == r.identity.runId
    && o.conversationId == Some(r.identity.conversationId)
    && o.assistantMessageId == Some(r.identity.assistantMessageId)
    && o.model == r.identity.model && o.apiStyle == r.identity.apiStyle
  }

  // ----- what each method does to the record; the flag says whether it returned Ok

  function Begin(identity: Identity, plan: Plan): Option<Receipt> {
    var r := Receipt(identity, plan, InProgress, Planned, None, None, None, None, None, identity.startedAt, None);
    if Valid(r) then Some(r) else None
  }

  function AdvanceStage(r: Receipt, stage: Stage, now: int): (Receipt, bool) {
    if !r.status.InProgress? || stage.Rank() < r.stage.Rank() || stage.Completed? || now < r.updatedAt then (r, false)
    else
      var s := r.(stage := stage, updatedAt := now);
      (s, Valid(s))
  }

  predicate PrefixFits(r: Receipt, p: Prefix) {
    p.conversationId == r.identity.conversationId && p.coveredThrough == r.plan.coveredThrough
    && p.previousSummary == r.plan.previousSummary
  }

  function AttachPrefix(r: Receipt, p: Prefix, now: int): (Receipt, bool) {
    if !PrefixFits(r, p) then (r, false)
    else AdvanceStage(r.(sourceRevision := Some(p.sourceRevision)), Generating, now)
  }

  function CompleteApplied(r: Receipt, d: Draft, o: Observation, now: int): (Receipt, bool) {
    if !ObservationFits(r, o) || !o.completed || r.sourceRevision != Some(d.sourceRevision) then (r, false)
    else
      var s := r.(observationId := Some(o.id), summaryId := Some(d.id),
                  outcome := Some(Outcome(d.id, d.sourceTokens, d.replacementTokens,
                                          SatSub(d.sourceTokens, d.replacementTokens))),
                  status := Applied, stage := Completed, updatedAt := now, completedAt := Some(now));
      (s, Valid(s))
  }

  function CompleteRefreshed(r: Receipt, o: Option<Observation>, now: int): (Receipt, bool) {
    if o.Some? && !(ObservationFits(r, o.value) && o.value.completed) then (r, false)
    else
      var s := r.(observationId := if o.Some? then Some(o.value.id) else r.observationId,
                  status := Refreshed, updatedAt := now, completedAt := Some(now));
      (s, Valid(s))
  }

  const MAX_ERROR_CHARS := 2000

  /** `truncate_error`. */
  function Shorten(text: string): (r: string)
    ensures |r| <= MAX_ERROR_CHARS && r <= text && (|text| <= MAX_ERROR_CHARS ==> r == text)
  {
    if |text| <= MAX_ERROR_CHARS then text else text[..MAX_ERROR_CHARS]
  }

  function Recorded(e: Failure): ReceiptError {
    ReceiptError(e.code, Shorten(e.text))
  }

  function CompleteError(r: Receipt, e: Failure, o: Option<Observation>, now: int): (Receipt, bool) {
    if o.Some? && !ObservationFits(r, o.value) then (r, false)
    else
      var s := r.(observationId := if o.Some? then Some(o.value.id) else r.observationId,
                  status := if e.cancelled then Cancelled else Failed, error := Some(Recorded(e)),
                  updatedAt := now, completedAt := Some(now));
      (s, Valid(s))
  }

  /** The record of an interruption: a fixed code and a fixed message. */
  const INTERRUPTED := ReceiptError(Some("context_compaction_interrupted"), "应用退出时上下文压缩尚未完成。")

  function MarkInterrupted(r: Receipt, now: int): (Receipt, bool) {
    if Terminal(r.status) then (r, true)
    else
      var s := r.(status := Interrupted, error := Some(INTERRUPTED), updatedAt := now, completedAt := Some(now));
      (s, Valid(s))
  }

  datatype Call =
    | Advance(stage: Stage, now: int)
    | Attach(prefix: Prefix, now: int)
    | Apply(draft: Draft, observation: Observation, now: int)
    | Refresh(observed: Option<Observation>, now: int)
    | Fail(failure: Failure, observed: Option<Observation>, now: int)
    | Interrupt(now: int)

  function Step(r: Receipt, c: Call): (Receipt, bool) {
    match c
    case Advance(stage, now) => AdvanceStage(r, stage, now)
    case Attach(p, now) => AttachPrefix(r, p, now)
    case Apply(d, o, now) => CompleteApplied(r, d, o, now)
    case Refresh(o, now) => CompleteRefreshed(r, o, now)
    case Fail(e, o, now) => CompleteError(r, e, o, now)
    case Interrupt(now) => MarkInterrupted(r, now)
  }

  /** The record as the source keeps it: fields assigned in place, and validated only afterwards. */
  class ReceiptCell {
    const identity: Identity
    const plan: Plan
    var status: Status
    var stage: Stage
    var sourceRevision: Option<string>
    var observationId: Option<string>
    var summaryId: Option<string>
    var outcome: Option<Outcome>
    var error: Option<ReceiptError>
    var updatedAt: int
    var completedAt: Option<int>

    function View(): Receipt
      reads this
    {
      Receipt(identity, plan, status, stage, sourceRevision, observationId, summaryId, outcome, error,
              updatedAt, completedAt)
    }

    constructor (identity: Identity, plan: Plan)
      ensures Begin(identity, plan) == if Valid(View()) then Some(View()) else None
    {
      this.identity, this.plan := identity, plan;
      status, stage := InProgress, Planned;
      sourceRevision, observationId, summaryId, outcome, error := None, None, None, None, None;
      updatedAt, completedAt := identity.startedAt, None;
    }

    method Advance(stage: Stage, now: int) returns (ok: bool)
      modifies this
      ensures (View(), ok) == AdvanceStage(old(View()), stage, now)
    {
      if !status.InProgress? || stage.Rank() < this.stage.Rank() || stage.Completed? || now < updatedAt { return false; }
      this.stage := stage;
      updatedAt := now;
      ok := Valid(View());
    }

    method Attach(p: Prefix, now: int) returns (ok: bool)
      modifies this
      ensures (View(), ok) == AttachPrefix(old(View()), p, now)
    {
      if p.conversationId != identity.conversationId || p.coveredThrough != plan.coveredThrough
         || p.previousSummary != plan.previousSummary { return false; }
      sourceRevision := Some(p.sourceRevision);
      ok := Advance(Generating, now);
    }

    method Apply(d: Draft, o: Observation, now: int) returns (ok: bool)
      modifies this
      ensures (View(), ok) == CompleteApplied(old(View()), d, o, now)
    {
      if !ObservationFits(View(), o) { return false; }
      if !o.completed || sourceRevision != Some(d.sourceRevision) { return false; }
      observationId := Some(o.id);
      summaryId := Some(d.id);
      outcome := Some(Outcome(d.id, d.sourceTokens, d.replacementTokens, SatSub(d.sourceTokens, d.replacementTokens)));
      status := Applied;
      stage := Completed;
      updatedAt := now;
      completedAt := Some(now);
      ok := Valid(View());
    }

    method Refresh(o: Option<Observation>, now: int) returns (ok: bool)
      modifies this
      ensures (View(), ok) == CompleteRefreshed(old(View()), o, now)
    {
      if o.Some? {
        if !ObservationFits(View(), o.value) || !o.value.completed { return false; }
        observationId := Some(o.value.id);
      }
      status := Refreshed;
      updatedAt := now;
      completedAt := Some(now);
      ok := Valid(View());
    }

    method Fail(e: Failure, o: Option<Observation>, now: int) returns (ok: bool)
      modifies this
      ensures (View(), ok) == CompleteError(old(View()), e, o, now)
    {
      if o.Some? {
        if !ObservationFits(View(), o.value) { return false; }
        observationId := Some(o.value.id);
      }
      status := if e.cancelled then Cancelled else Failed;
      error := Some(Recorded(e));
      updatedAt := now;
      completedAt := Some(now);
      ok := Valid(View());
    }

    method Interrupt(now: int) returns (ok: bool)
      modifies this
      ensures (View(), ok) == MarkInterrupted(old(View()), now)
    {
      if !status.InProgress? { return true; }
      status := Interrupted;
      error := Some(INTERRUPTED);
      updatedAt := now;
      completedAt := Some(now);
      ok := Valid(View());
    }
  }

  // ----- runs of successful calls

  /** The receipt after a run, when every call of it succeeded. */
  function Run(r: Receipt, calls: seq<Call>): Option<Receipt> {
    if calls == [] then Some(r)
    else
      match Run(r, calls[..|calls| - 1])
      case None => None
      case Some(s) =>
        var t := Step(s, calls[|calls| - 1]);
        if t.1 then Some(t.0) else None
  }

  predicate Reached(r: Receipt, calls: seq<Call>) {
    Run(r, calls).Some?
  }

  /** How one successful call may move a valid receipt. */
  predicate MovesTo(r: Receipt, s: Receipt) {
    s.identity == r.identity && s.plan == r.plan && r.stage.Rank() <= s.stage.Rank()
    && (Terminal(r.status) ==> Terminal(s.status))
    && (r.status.Applied? ==> s.status.Applied?)
    && (r.status in {Failed, Cancelled, Interrupted} ==> s.status in {Failed, Cancelled, Interrupted})
  }

  lemma {:induction false} StepMoves(r: Receipt, c: Call)
    requires Valid(r) && Step(r, c).1
    ensures Valid(Step(r, c).0) && MovesTo(r, Step(r, c).0)
  {
    hide Blank, NameOk, PlanValid, IdentityValid;
  }

  /** Over every run of successful calls from a begun receipt: validity, identity, plan, stage order and finality. */
  lemma {:induction false} RunSafe(start: Receipt, calls: seq<Call>, i: nat)
    requires Begin(start.identity, start.plan) == Some(start) && Reached(start, calls) && i <= |calls|
    ensures Reached(start, calls[..i])
    ensures Valid(Run(start, calls).value) && MovesTo(Run(start, calls[..i]).value, Run(start, calls).value)
    decreases |calls|
  {
    hide Valid, MovesTo, Step;
    if i == |calls| {
      assert calls[..i] == calls;
      if calls != [] {
        RunSafe(start, calls[..i - 1], i - 1);
        StepMoves(Run(start, calls[..i - 1]).value, calls[i - 1]);
      } else { BeginValid(start); }
      MovesSelf(Run(start, calls).value);
    } else {
      var front := calls[..|calls| - 1];
      RunSafe(start, front, i);
      assert front[..i] == calls[..i];
      StepMoves(Run(start, front).value, calls[|calls| - 1]);
      MovesOn(Run(start, calls[..i]).value, Run(start, front).value, Run(start, calls).value);
    }
  }

  lemma {:induction false} BeginValid(start: Receipt)
    requires Begin(start.identity, start.plan) == Some(start)
    ensures Valid(start)
  {
  }

  lemma {:induction false} MovesSelf(r: Receipt)
    ensures MovesTo(r, r)
  {
  }

  lemma {:induction false} MovesOn(r: Receipt, s: Receipt, t: Receipt)
    requires MovesTo(r, s) && MovesTo(s, t)
    ensures MovesTo(r, t)
  {
  }

  /** In every run the recorded message is short, and an error is recorded exactly in the three failing statuses. */
  lemma {:induction false} ErrorIsBounded(start: Receipt, calls: seq<Call>)
    requires Begin(start.identity, start.plan) == Some(start) && Reached(start, calls)
    ensures var r := Run(start, calls).value;
            (r.error.Some? <==> r.status in {Failed, Cancelled, Interrupted})
            && (r.error.Some? ==> |r.error.value.message| <= MAX_ERROR_CHARS)
  {
    hide Valid, Begin, Step;
    RunSafe(start, calls, 0);
    if calls == [] {
      BeginPending(start);
    } else {
      var n := |calls| - 1;
      ErrorIsBounded(start, calls[..n]);
      ErrorStep(Run(start, calls[..n]).value, calls[n]);
    }
    ErrorStatus(Run(start, calls).value);
  }

  lemma {:induction false} ErrorStep(r: Receipt, c: Call)
    ensures Step(r, c).0.error == r.error || (Step(r, c).0.error.Some? && |Step(r, c).0.error.value.message| <= MAX_ERROR_CHARS)
  {
    hide Valid;
    assert |INTERRUPTED.message| <= MAX_ERROR_CHARS;
  }

  lemma {:induction false} ErrorStatus(r: Receipt)
    requires Valid(r)
    ensures r.error.Some? <==> r.status in {Failed, Cancelled, Interrupted}
  {
    hide PlanValid, IdentityValid;
  }

  /** Where a recorded error comes from: the code and the first 2000 characters of a failure, or an interruption. */
  lemma {:induction false} ErrorRecorded(start: Receipt, calls: seq<Call>) returns (i: nat)
    requires Begin(start.identity, start.plan) == Some(start) && Reached(start, calls)
    requires Run(start, calls).value.error.Some?
    ensures i < |calls| && ErrorFrom(calls[i], Run(start, calls).value.error.value)
  {
    hide Valid, Begin, Step;
    i := 0;
    if calls == [] {
      BeginPending(start);
      ErrorStatus(start) by { BeginValid(start); }
    } else {
      var n := |calls| - 1;
      var s := Run(start, calls[..n]).value;
      ErrorSource(s, calls[n]);
      if Step(s, calls[n]).0.error == s.error { i := ErrorRecorded(start, calls[..n]); } else { i := n; }
    }
  }

  predicate ErrorFrom(c: Call, e: ReceiptError) {
    (c.Fail? && e.code == c.failure.code && |e.message| <= 2000 && e.message <= c.failure.text
     && (|e.message| < 2000 ==> e.message == c.failure.text))
    || (c.Interrupt? && e.code == Some("context_compaction_interrupted"))
  }

  lemma {:induction false} ErrorSource(r: Receipt, c: Call)
    ensures Step(r, c).0.error == r.error || (Step(r, c).0.error.Some? && ErrorFrom(c, Step(r, c).0.error.value))
  {
    hide Valid;
  }

  // ----- what the checks mean

  /** A plan is valid when its tokens add up, something is left to free, and it names its revisions and cursor. */
  lemma {:induction false} PlanMeans(p: Plan)
    ensures PlanValid(p) <==>
            p.cursorValid && !Blank(p.contextRevision) && !Blank(p.persistentRevision) && p.atomicUnits > 0
            && p.targetTokens < p.sourceTokens
            && p.sourceTokens == p.targetTokens + p.retainedTokens + p.expectedReclaimed
  {
    hide Blank;
  }

  lemma {:induction false} IdentityMeans(i: Identity)
    ensures IdentityValid(i) <==>
            i.schemaVersion == 1 && i.requestIndex >= 1 && i.attemptIndex >= 1 && i.startedAt >= 0
            && !Blank(i.operationId) && !Blank(i.runId) && !Blank(i.conversationId) && !Blank(i.assistantMessageId)
            && !Blank(i.model) && (i.sourceName.Some? <==> i.targetName.Some?)
            && (forall name :: name in [i.modelConfigId, i.sourceName, i.targetName] && name.Some? ==>
                  !Blank(name.value) && Trimmed(name.value) && Utf8Len(name.value) <= 512)
  {
    hide Blank, Trimmed, Utf8Len;
    assert i.modelConfigId in [i.modelConfigId, i.sourceName, i.targetName];
    assert i.sourceName in [i.modelConfigId, i.sourceName, i.targetName];
    assert i.targetName in [i.modelConfigId, i.sourceName, i.targetName];
  }

  /** A receipt begins exactly from a valid identity and plan: in progress, planned, and with nothing recorded. */
  lemma {:induction false} BeginsIff(identity: Identity, plan: Plan)
    ensures Begin(identity, plan).Some? <==> IdentityValid(identity) && PlanValid(plan)
    ensures Begin(identity, plan).Some? ==>
              var r := Begin(identity, plan).value;
              r.identity == identity && r.plan == plan && r.status.InProgress? && r.stage.Planned?
              && r.sourceRevision.None? && r.observationId.None? && r.summaryId.None? && r.outcome.None? && r.error.None?
              && r.updatedAt == identity.startedAt && r.completedAt.None?
  {
    hide IdentityValid, PlanValid;
  }

  /** What every reached record looks like, by its status. */
  lemma {:induction false} ReachedShape(start: Receipt, calls: seq<Call>)
    requires Begin(start.identity, start.plan) == Some(start) && Reached(start, calls)
    ensures var r := Run(start, calls).value;
            IdentityValid(r.identity) && PlanValid(r.plan) && r.updatedAt >= r.identity.startedAt
            && (r.completedAt.Some? <==> !r.status.InProgress?)
            && (r.completedAt.Some? ==> r.completedAt.value >= r.identity.startedAt)
            && (r.sourceRevision.Some? <==> r.stage.Rank() >= 2) && (r.stage.Completed? <==> r.status.Applied?)
            && (r.outcome.Some? <==> r.status.Applied?) && (r.summaryId.Some? <==> r.status.Applied?)
            && (r.status.InProgress? ==> r.observationId.None?) && (r.status.Applied? ==> r.observationId.Some?)
  {
    hide Valid, Begin, Step, IdentityValid, PlanValid;
    RunSafe(start, calls, 0);
    NotDoneInProgress(start, calls);
    ValidShape(Run(start, calls).value);
  }

  lemma {:induction false} ValidShape(r: Receipt)
    requires Valid(r) && (r.status.InProgress? ==> r.completedAt.None?)
    ensures IdentityValid(r.identity) && PlanValid(r.plan) && r.updatedAt >= r.identity.startedAt
            && (r.completedAt.Some? <==> !r.status.InProgress?)
            && (r.completedAt.Some? ==> r.completedAt.value >= r.identity.startedAt)
            && (r.sourceRevision.Some? <==> r.stage.Rank() >= 2) && (r.stage.Completed? <==> r.status.Applied?)
            && (r.outcome.Some? <==> r.status.Applied?) && (r.summaryId.Some? <==> r.status.Applied?)
            && (r.status.InProgress? ==> r.observationId.None?) && (r.status.Applied? ==> r.observationId.Some?)
  {
    hide IdentityValid, PlanValid;
  }

  /** A record in progress has no time of completion. */
  lemma {:induction false} NotDoneInProgress(start: Receipt, calls: seq<Call>)
    requires Begin(start.identity, start.plan) == Some(start) && Reached(start, calls)
    ensures Run(start, calls).value.status.InProgress? ==> Run(start, calls).value.completedAt.None?
  {
    hide Valid, Begin, Step;
    if calls == [] {
      BeginsIff(start.identity, start.plan);
    } else {
      var n := |calls| - 1;
      NotDoneInProgress(start, calls[..n]);
      CompletionStep(Run(start, calls[..n]).value, calls[n]);
    }
  }

  lemma {:induction false} CompletionStep(r: Receipt, c: Call)
    requires Step(r, c).1
    ensures Step(r, c).0.status.InProgress? ==> r.status.InProgress? && Step(r, c).0.completedAt == r.completedAt
  {
    hide Valid;
  }

  /** What a successful call leaves in the record. */
  lemma {:induction false} StepRecords(r: Receipt, c: Call)
    requires Step(r, c).1
    ensures var s := Step(r, c).0;
            match c
            case Advance(stage, now) => s == r.(stage := stage, updatedAt := now)
            case Attach(p, now) => s == r.(stage := Generating, sourceRevision := Some(p.sourceRevision), updatedAt := now)
            case Apply(d, o, now) =>
              s.status.Applied? && s.stage.Completed? && s.summaryId == Some(d.id) && s.observationId == Some(o.id)
              && s.outcome.Some? && s.outcome.value.sourceTokens == d.sourceTokens
              && s.outcome.value.replacementTokens == d.replacementTokens && s.updatedAt == now && s.completedAt == Some(now)
              && s.error == r.error && s.sourceRevision == r.sourceRevision
            case Refresh(o, now) =>
              s == r.(status := Refreshed, updatedAt := now, completedAt := Some(now),
                      observationId := if o.Some? then Some(o.value.id) else r.observationId)
            case Fail(e, o, now) =>
              s == r.(status := if e.cancelled then Cancelled else Failed, updatedAt := now, completedAt := Some(now),
                      observationId := if o.Some? then Some(o.value.id) else r.observationId,
                      error := Some(ReceiptError(e.code, Shorten(e.text))))
            case Interrupt(now) =>
              if r.status.InProgress?
              then s.status.Interrupted? && s.error.Some? && s.updatedAt == now && s.completedAt == Some(now)
                   && s.stage == r.stage && s.observationId == r.observationId && s.sourceRevision == r.sourceRevision
              else s == r
  {
    hide Valid;
  }

  // ----- where an applied receipt comes from

  /** Call `i` attached a prefix covering exactly the plan, under this revision. */
  predicate AttachedAt(start: Receipt, calls: seq<Call>, i: nat, revision: string) {
    i < |calls| && calls[i].Attach? && calls[i].prefix.conversationId == start.identity.conversationId
    && calls[i].prefix.coveredThrough == start.plan.coveredThrough
    && calls[i].prefix.previousSummary == start.plan.previousSummary && calls[i].prefix.sourceRevision == revision
  }

  /** Call `i` applied the draft, made from this revision, that the final receipt records. */
  predicate AppliedAt(calls: seq<Call>, i: nat, r: Receipt) {
    i < |calls| && calls[i].Apply? && r.sourceRevision == Some(calls[i].draft.sourceRevision)
    && r.summaryId == Some(calls[i].draft.id) && r.outcome.Some?
    && r.outcome.value.sourceTokens == calls[i].draft.sourceTokens
    && r.outcome.value.replacementTokens == calls[i].draft.replacementTokens
    && r.outcome.value.summaryId == calls[i].draft.id && r.observationId == Some(calls[i].observation.id)
    && r.completedAt == Some(calls[i].now) && r.updatedAt == calls[i].now
    && Belongs(r.identity, calls[i].observation) && calls[i].observation.completed
  }

  /** The observation is a valid compaction request of exactly this operation, run, conversation, message and model. */
  predicate Belongs(i: Identity, o: Observation) {
    o.valid && o.compaction && o.operationId == Some(i.operationId) && o.runId == i.runId
    && o.conversationId == Some(i.conversationId) && o.assistantMessageId == Some(i.assistantMessageId)
    && o.model == i.model && o.apiStyle == i.apiStyle
  }

  /** Any bound revision was bound by an attach of the planned prefix somewhere in the run. */
  lemma {:induction false} RevisionAttached(start: Receipt, calls: seq<Call>) returns (i: nat)
    requires Begin(start.identity, start.plan) == Some(start) && Reached(start, calls)
    requires Run(start, calls).value.sourceRevision.Some?
    ensures AttachedAt(start, calls, i, Run(start, calls).value.sourceRevision.value)
  {
    hide Valid, Begin, Step;
    i := 0;
    if calls == [] {
      BeginUnbound(start);
    } else {
      var n := |calls| - 1;
      var front, c := calls[..n], calls[n];
      var s := Run(start, front).value;
      RunSafe(start, front, 0);
      assert front[..0] == [];
      RevisionStep(s, c);
      if c.Attach? && Step(s, c).0.sourceRevision == Some(c.prefix.sourceRevision) {
        i := n;
      } else {
        i := RevisionAttached(start, front);
      }
    }
  }

  lemma {:induction false} BeginUnbound(start: Receipt)
    requires Begin(start.identity, start.plan) == Some(start)
    ensures start.sourceRevision.None?
  {
  }

  lemma {:induction false} RevisionStep(s: Receipt, c: Call)
    requires Step(s, c).1
    ensures if c.Attach? then PrefixFits(s, c.prefix) && Step(s, c).0.sourceRevision == Some(c.prefix.sourceRevision)
            else Step(s, c).0.sourceRevision == s.sourceRevision
  {
    hide Valid;
  }

  /** What an applied receipt records was applied by some call, and later calls kept it. */
  lemma {:induction false} OutcomeApplied(start: Receipt, calls: seq<Call>) returns (i: nat)
    requires Begin(start.identity, start.plan) == Some(start) && Reached(start, calls)
    requires Run(start, calls).value.status.Applied?
    ensures AppliedAt(calls, i, Run(start, calls).value)
    ensures Reached(start, calls[..i])
    ensures Run(start, calls[..i]).value.sourceRevision == Some(calls[i].draft.sourceRevision)
  {
    hide Valid, Begin, Step;
    i := 0;
    if calls == [] {
      BeginPending(start);
    } else {
      var n := |calls| - 1;
      var front, c := calls[..n], calls[n];
      var s := Run(start, front).value;
      RunSafe(start, front, 0);
      AppliedStep(s, c);
      if c.Apply? {
        i := n;
      } else {
        i := OutcomeApplied(start, front);
        assert front[..i] == calls[..i];
      }
    }
  }

  lemma {:induction false} BeginPending(start: Receipt)
    requires Begin(start.identity, start.plan) == Some(start)
    ensures start.status.InProgress?
  {
  }

  lemma {:induction false} AppliedStep(s: Receipt, c: Call)
    requires Valid(s) && Step(s, c).1 && Step(s, c).0.status.Applied?
    ensures if c.Apply? then AppliedAt([c], 0, Step(s, c).0) && s.sourceRevision == Some(c.draft.sourceRevision)
            else Step(s, c).0 == s
  {
    hide PlanValid, IdentityValid;
  }

  /**
   * Every applied receipt was preceded by an attach: first a prefix that covers exactly the planned cursor and
   * previous summary was attached, then a draft made from that very revision was applied.
   */
  lemma {:induction false} AppliedProvenance(start: Receipt, calls: seq<Call>) returns (attach: nat, apply: nat)
    requires Begin(start.identity, start.plan) == Some(start) && Reached(start, calls)
    requires Run(start, calls).value.status.Applied?
    ensures attach < apply < |calls| && AppliedAt(calls, apply, Run(start, calls).value)
    ensures AttachedAt(start, calls, attach, calls[apply].draft.sourceRevision)
  {
    hide Valid, Begin, Step, Run;
    apply := OutcomeApplied(start, calls);
    attach := RevisionAttached(start, calls[..apply]);
  }

  /** Exactly when a draft can be applied to a valid receipt; a refreshed one is not excluded, a failed one is. */
  lemma {:induction false} ApplyAcceptedIff(r: Receipt, d: Draft, o: Observation, now: int)
    requires Valid(r)
    ensures Step(r, Apply(d, o, now)).1 <==>
            r.status in {InProgress, Refreshed, Applied} && ObservationFits(r, o) && o.completed
            && r.sourceRevision == Some(d.sourceRevision)
            && d.replacementTokens < d.sourceTokens && d.sourceTokens == r.plan.sourceTokens
            && now >= r.identity.startedAt
  {
    hide PlanValid, IdentityValid;
  }

  /** Exactly when a valid receipt can move to a stage. */
  lemma {:induction false} AdvanceAcceptedIff(r: Receipt, stage: Stage, now: int)
    requires Valid(r)
    ensures Step(r, Advance(stage, now)).1 <==>
            r.status.InProgress? && r.stage.Rank() <= stage.Rank() && !stage.Completed? && now >= r.updatedAt
            && (stage.Rank() >= 2 <==> r.sourceRevision.Some?)
  {
    hide PlanValid, IdentityValid;
  }

  /** Exactly when a prefix can be attached to a valid receipt. */
  lemma {:induction false} AttachAcceptedIff(r: Receipt, p: Prefix, now: int)
    requires Valid(r)
    ensures Step(r, Attach(p, now)).1 <==>
            p.conversationId == r.identity.conversationId && p.coveredThrough == r.plan.coveredThrough
            && p.previousSummary == r.plan.previousSummary
            && r.status.InProgress? && r.stage.Rank() <= 2 && now >= r.updatedAt
  {
    hide PlanValid, IdentityValid;
  }

  // ----- receipts begun for a change of provider

  /** A prefix with the number of its source items; a valid one has a cursor, a revision and at least one item. */
  datatype Source = Source(prefix: Prefix, valid: bool, items: nat)

  predicate SourceSound(src: Source) {
    src.valid ==> src.items > 0 && !Blank(src.prefix.sourceRevision) && !Blank(src.prefix.conversationId)
  }

  function TransitionPlan(src: Source, source: U64, target: U64): Plan {
    Plan(src.prefix.sourceRevision, src.prefix.sourceRevision, source, 0, target, SatSub(source, target),
         if src.items > 1 then src.items else 1, src.prefix.previousSummary, src.prefix.coveredThrough, true)
  }

  /** `begin_provider_transition`. */
  function BeginTransition(identity: Identity, src: Source, source: U64, target: U64): Option<Receipt> {
    if !src.valid || source == 0 || target >= source then None
    else Begin(identity, TransitionPlan(src, source, target))
  }

  /** A transition begins exactly on a valid prefix, a shrinking token target and a valid identity. */
  lemma {:induction false} TransitionBeginsIff(identity: Identity, src: Source, source: U64, target: U64)
    requires SourceSound(src)
    ensures BeginTransition(identity, src, source, target).Some? <==> src.valid && target < source && IdentityValid(identity)
  {
    hide IdentityValid;
  }

  /** The prefix a transition was begun from can always be attached to it, and everything freed is reclaimed. */
  lemma {:induction false} TransitionAttaches(identity: Identity, src: Source, source: U64, target: U64, now: int)
    requires BeginTransition(identity, src, source, target).Some? && now >= identity.startedAt
    requires src.prefix.conversationId == identity.conversationId
    ensures var r := BeginTransition(identity, src, source, target).value;
            Step(r, Attach(src.prefix, now)).1 && r.plan.sourceTokens == r.plan.targetTokens + r.plan.expectedReclaimed
  {
    hide IdentityValid, Step;
    var r := BeginTransition(identity, src, source, target).value;
    AttachAcceptedIff(r, src.prefix, now);
  }

  /** The course a compaction is planned to take. */
  function Course(p: Prefix, d: Draft, o: Observation, now: int): seq<Call> {
    [Advance(Preparing, now), Attach(p, now), Advance(Committing, now), Apply(d, o, now)]
  }

  /** From every begun receipt the planned course succeeds, step by step, and ends applied. */
  lemma {:induction false} CourseApplies(start: Receipt, p: Prefix, d: Draft, o: Observation, now: int)
    requires Begin(start.identity, start.plan) == Some(start) && now >= start.updatedAt
    requires PrefixFits(start, p) && ObservationFits(start, o) && o.completed
    requires d.sourceRevision == p.sourceRevision && d.replacementTokens < d.sourceTokens
    requires d.sourceTokens == start.plan.sourceTokens
    ensures Reached(start, Course(p, d, o, now)) && Run(start, Course(p, d, o, now)).value.status.Applied?
  {
    hide Valid, Run;
    BeginValid(start);
    var r1 := AdvanceStage(start, Preparing, now).0;
    AdvanceAcceptedIff(start, Preparing, now);
    StepMoves(start, Advance(Preparing, now));
    var r2 := AttachPrefix(r1, p, now).0;
    AttachAcceptedIff(r1, p, now);
    StepMoves(r1, Attach(p, now));
    var r3 := AdvanceStage(r2, Committing, now).0;
    AdvanceAcceptedIff(r2, Committing, now);
    StepMoves(r2, Advance(Committing, now));
    ApplyAcceptedIff(r3, d, o, now);
    var calls := Course(p, d, o, now);
    RunStarts(start, calls);
    RunNext(start, calls, 0, start);
    RunNext(start, calls, 1, r1);
    RunNext(start, calls, 2, r2);
    RunNext(start, calls, 3, r3);
    assert calls[..4] == calls;
  }

  lemma {:induction false} RunStarts(start: Receipt, calls: seq<Call>)
    ensures Run(start, calls[..0]) == Some(start)
  {
  }

  lemma {:induction false} RunNext(start: Receipt, calls: seq<Call>, i: nat, r: Receipt)
    requires i < |calls| && Run(start, calls[..i]) == Some(r) && Step(r, calls[i]).1
    ensures Run(start, calls[..i + 1]) == Some(Step(r, calls[i]).0)
  {
    hide Step;
    assert calls[..i + 1][..i] == calls[..i];
  }

  /** Exactly when a valid receipt can be marked refreshed. */
  lemma {:induction false} RefreshAcceptedIff(r: Receipt, o: Option<Observation>, now: int)
    requires Valid(r)
    ensures Step(r, Refresh(o, now)).1 <==>
            r.status in {InProgress, Refreshed} && (o.Some? ==> ObservationFits(r, o.value) && o.value.completed)
            && now >= r.identity.startedAt
  {
    hide PlanValid, IdentityValid;
  }

  /** Exactly when a valid receipt can be marked failed or cancelled: whatever is not applied can. */
  lemma {:induction false} FailAcceptedIff(r: Receipt, e: Failure, o: Option<Observation>, now: int)
    requires Valid(r)
    ensures Step(r, Fail(e, o, now)).1 <==>
            !r.status.Applied? && (o.Some? ==> ObservationFits(r, o.value)) && now >= r.identity.startedAt
  {
    hide PlanValid, IdentityValid;
  }

  /** An interruption never fails on a finished receipt, and otherwise needs only a time not before the start. */
  lemma {:induction false} InterruptAcceptedIff(r: Receipt, now: int)
    requires Valid(r)
    ensures Step(r, Interrupt(now)).1 <==> !r.status.InProgress? || now >= r.identity.startedAt
  {
    hide PlanValid, IdentityValid;
  }

  /** Refreshed is not final: after attaching and refreshing, the draft can still be applied. */
  lemma {:induction false} RefreshedCanApply(start: Receipt, p: Prefix, d: Draft, o: Observation, now: int)
    requires Begin(start.identity, start.plan) == Some(start) && now >= start.updatedAt
    requires PrefixFits(start, p) && ObservationFits(start, o) && o.completed
    requires d.sourceRevision == p.sourceRevision && d.replacementTokens < d.sourceTokens
    requires d.sourceTokens == start.plan.sourceTokens
    ensures var calls := [Attach(p, now), Refresh(None, now), Apply(d, o, now)];
            Reached(start, calls[..2]) && Run(start, calls[..2]).value.status.Refreshed?
            && Reached(start, calls) && Run(start, calls).value.status.Applied?
  {
    hide Valid, Run;
    BeginValid(start);
    var r1 := AttachPrefix(start, p, now).0;
    AttachAcceptedIff(start, p, now);
    StepMoves(start, Attach(p, now));
    var r2 := CompleteRefreshed(r1, None, now).0;
    RefreshAcceptedIff(r1, None, now);
    StepMoves(r1, Refresh(None, now));
    ApplyAcceptedIff(r2, d, o, now);
    var calls := [Attach(p, now), Refresh(None, now), Apply(d, o, now)];
    RunStarts(start, calls);
    RunNext(start, calls, 0, start);
    RunNext(start, calls, 1, r1);
    RunNext(start, calls, 2, r2);
    assert calls[..3] == calls;
  }

  /** Nor is it safe from failing. */
  lemma {:induction false} RefreshedCanFail(start: Receipt, e: Failure, now: int)
    requires Begin(start.identity, start.plan) == Some(start) && now >= start.updatedAt
    ensures var calls := [Refresh(None, now), Fail(e, None, now)];
            Reached(start, calls[..1]) && Run(start, calls[..1]).value.status.Refreshed?
            && Reached(start, calls) && Run(start, calls).value.status == if e.cancelled then Cancelled else Failed
  {
    hide Valid, Run;
    BeginValid(start);
    var r1 := CompleteRefreshed(start, None, now).0;
    RefreshAcceptedIff(start, None, now);
    StepMoves(start, Refresh(None, now));
    FailAcceptedIff(r1, e, None, now);
    var calls := [Refresh(None, now), Fail(e, None, now)];
    RunStarts(start, calls);
    RunNext(start, calls, 0, start);
    RunNext(start, calls, 1, r1);
    assert calls[..2] == calls;
  }

  /** Tokens are conserved and no subtraction saturates: the plan's in every valid receipt, the outcome's once applied. */
  lemma {:induction false} TokensConserved(r: Receipt)
    requires Valid(r)
    ensures r.plan.sourceTokens == r.plan.targetTokens + r.plan.retainedTokens + r.plan.expectedReclaimed
    ensures r.status.Applied? ==>
              r.outcome.Some? &&
              var o := r.outcome.value;
              o.sourceTokens == o.replacementTokens + o.reclaimedTokens && o.reclaimedTokens > 0
              && o.sourceTokens == r.plan.sourceTokens
  {
    hide Blank, NameOk;
  }

  lemma {:induction false} RunConserves(start: Receipt, calls: seq<Call>)
    requires Begin(start.identity, start.plan) == Some(start) && Reached(start, calls)
    ensures var r := Run(start, calls).value; var p := start.plan;
            p.sourceTokens == p.targetTokens + p.retainedTokens + p.expectedReclaimed
            && (r.status.Applied? ==>
                  r.outcome.Some? && r.outcome.value.sourceTokens == p.sourceTokens
                  && p.sourceTokens == r.outcome.value.replacementTokens + r.outcome.value.reclaimedTokens
                  && r.outcome.value.reclaimedTokens > 0)
  {
    hide Valid, Begin, Step, Run;
    RunSafe(start, calls, 0);
    TokensConserved(Run(start, calls).value);
    RunStart(start, calls);
  }

  lemma {:induction false} RunStart(start: Receipt, calls: seq<Call>)
    requires Begin(start.identity, start.plan) == Some(start) && Reached(start, calls)
    ensures Run(start, calls).value.plan == start.plan
  {
    hide Valid, Begin, Step;
    RunSafe(start, calls, 0);
    assert calls[..0] == [];
  }
}
