/** The apply run on one Target, step by step, inside the lifecycle lock. Every step may fail with
    a partial effect, and the process may stop between any two writes: `trail` lists every state
    the Target has been in. */
module ApplyLifecycle {
  import opened Wrappers

  type Provider = string
  type Consumer = string

  /** Observed deployment states; `Observed` is what status collection reports after a run. */
  datatype State = Configured | Applying | Failed | Observed(status: Status)
  datatype Status = ReadyStatus | Running | Degraded | Incomplete | NotApplied

  datatype Snapshot = Snapshot(
    instances: set<Provider>,
    bindings: set<(Consumer, Provider)>,
    runtime: set<Provider>,
    record: Option<State>)

  /** What one application asks of the Target: providers registered from its manifest, and
      those its log and trace selection adds. */
  datatype Desired = Desired(me: Consumer, declared: set<Provider>, additional: set<Provider>)
  {
    function All(): set<Provider> { declared + additional }
  }

  datatype Step =
    | Resolve | TakeLock | Core | Authorize | PlanRetirement | Mutate | Rebuild | Reauthorize | Replan
    | RecordApplying | RetainDeclared | Broker | Preflight | RetainAdditional | Prepare | Verify | Converge | Routes
    | Retire | Realize | Fingerprint | CollectStatus | RecordVerified | Report | Audit

  /** The cause of a failed run, and whether recording the failure failed as well. */
  datatype Failure = Failure(cause: Step, recordLost: bool)

  type Ending = Result<(), Failure>

  /** One start attempt of the managed runtime. */
  datatype Up = Started | PortConflict | OtherError
  datatype Attempt = Attempt(up: Up, created: set<Provider>, downOk: bool, stopped: set<Provider>,
                             reallocated: bool, environmentOk: bool, configOk: bool)

  /** Everything the run does not decide: which steps succeed and what they touch. */
  datatype World = World(
    ok: set<Step>,
    remote: bool,
    brokerCreates: set<Provider>,
    prepareCreates: set<Provider>,
    scoped: bool,
    environmentOk: bool,
    attempts: seq<Attempt>,
    reconciled: bool,
    convergeCreates: set<Provider>,
    retires: set<Provider>,
    status: Status,
    failureRecorded: bool)

  const MAX_ATTEMPTS := 3

  // ---------- which step ends a run ----------

  /** The attempt ran into a port conflict and everything needed for another one succeeded. */
  predicate Retried(a: Attempt)
  {
    a.up == PortConflict && a.downOk && a.reallocated && a.environmentOk && a.configOk
  }

  /** The start that succeeds: every one before it was retried. */
  predicate StartsAt(w: World, n: nat)
  {
    && n < MAX_ATTEMPTS && n < |w.attempts| && w.attempts[n].up == Started
    && forall i :: 0 <= i < n ==> Retried(w.attempts[i])
  }

  /** Whether the managed runtime comes up. */
  ghost predicate ComesUp(w: World)
  {
    w.scoped ==> w.environmentOk && w.reconciled && exists n: nat :: StartsAt(w, n)
  }

  /** The port conflict of an attempt, and everything repaired for the next one. */
  predicate Repaired(a: Attempt)
  {
    a.up.PortConflict? && a.downOk == true && a.reallocated == true && a.environmentOk == true && a.configOk == true
  }

  /** The runtime comes up exactly if there is nothing to start, or one of three attempts starts it, the ones
      before having ended in repaired port conflicts, in an environment that can be read and reconciled. */
  lemma ComesUpExactly(w: World)
    requires |w.attempts| == MAX_ATTEMPTS
    ensures |w.attempts| == 3
    ensures ComesUp(w) <==>
      (w.scoped == true ==>
         && w.environmentOk == true && w.reconciled == true
         && (|| w.attempts[0].up.Started?
             || (Repaired(w.attempts[0]) && w.attempts[1].up.Started?)
             || (Repaired(w.attempts[0]) && Repaired(w.attempts[1]) && w.attempts[2].up.Started?)))
  {
    forall n: nat | StartsAt(w, n) ensures n == 0 || n == 1 || n == 2 {}
    if w.attempts[0].up.Started? { assert StartsAt(w, 0); }
    if Repaired(w.attempts[0]) && w.attempts[1].up.Started? { assert StartsAt(w, 1); }
    if Repaired(w.attempts[0]) && Repaired(w.attempts[1]) && w.attempts[2].up.Started? { assert StartsAt(w, 2); }
  }

  lemma NoStart(w: World, k: nat)
    requires k < |w.attempts| && w.attempts[k].up != Started
    requires forall i :: 0 <= i < k ==> Retried(w.attempts[i])
    requires !Retried(w.attempts[k]) || k + 1 == MAX_ATTEMPTS
    ensures forall n: nat :: !StartsAt(w, n)
  {
    forall n: nat ensures !StartsAt(w, n) {
      if n < k { assert Retried(w.attempts[n]); }
    }
  }

  /** How many starts are attempted from the `k`-th on. */
  function Tries(attempts: seq<Attempt>, k: nat): nat
    requires k < |attempts|
    decreases |attempts| - k
  {
    if k + 1 < |attempts| && Retried(attempts[k]) then 1 + Tries(attempts, k + 1) else 1
  }

  /** What a cleanup stops; one that succeeds takes at least what the attempt created. */
  function Cleaned(a: Attempt, all: set<Provider>): set<Provider>
  {
    a.stopped + if a.downOk then a.created * all else {}
  }

  /** The runtime after one attempt; the last one is not cleaned up. */
  function AfterAttempt(runtime: set<Provider>, a: Attempt, last: bool, all: set<Provider>): set<Provider>
  {
    var up := runtime + a.created * all;
    if a.up != PortConflict || last then up else up - Cleaned(a, all)
  }

  /** The runtime after the attempts from the `k`-th on. */
  function AfterAttempts(runtime: set<Provider>, attempts: seq<Attempt>, k: nat, all: set<Provider>): set<Provider>
    requires k < |attempts|
    decreases |attempts| - k
  {
    var last := k + 1 == |attempts|;
    var now := AfterAttempt(runtime, attempts[k], last, all);
    if !last && Retried(attempts[k]) then AfterAttempts(now, attempts, k + 1, all) else now
  }

  /** A start that succeeds after conflicts leaves none of the creations of the attempts before it,
      but those it made again. */
  lemma {:induction false} OnlyTheLastAttemptStays(
    runtime: set<Provider>, attempts: seq<Attempt>, k: nat, n: nat, all: set<Provider>)
    requires k <= n < |attempts| && attempts[n].up == Started
    requires forall i :: k <= i < n ==> Retried(attempts[i])
    ensures AfterAttempts(runtime, attempts, k, all) <= runtime + attempts[n].created * all
    decreases n - k
  {
    if k < n {
      OnlyTheLastAttemptStays(AfterAttempt(runtime, attempts[k], false, all), attempts, k + 1, n, all);
    }
  }

  /** The first `k` attempts were retried and have led to `now`. */
  predicate Reached(attempts: seq<Attempt>, k: nat, runtime: set<Provider>, now: set<Provider>, all: set<Provider>)
  {
    && k < |attempts| && (forall i :: 0 <= i < k ==> Retried(attempts[i]))
    && Tries(attempts, 0) == k + Tries(attempts, k)
    && AfterAttempts(runtime, attempts, 0, all) == AfterAttempts(now, attempts, k, all)
  }

  /** The attempt after which there is no other decides. */
  lemma AttemptsEnd(w: World, k: nat, runtime: set<Provider>, now: set<Provider>, all: set<Provider>)
    requires |w.attempts| == MAX_ATTEMPTS && Reached(w.attempts, k, runtime, now, all)
    requires k + 1 == MAX_ATTEMPTS || !Retried(w.attempts[k])
    ensures (exists n: nat :: StartsAt(w, n)) <==> w.attempts[k].up == Started
    ensures Tries(w.attempts, 0) == k + 1
    ensures AfterAttempts(runtime, w.attempts, 0, all) == AfterAttempt(now, w.attempts[k], k + 1 == MAX_ATTEMPTS, all)
  {
    if w.attempts[k].up == Started { assert StartsAt(w, k); } else { NoStart(w, k); }
  }

  /** Whether a step succeeds when it is reached. */
  ghost predicate Succeeds(w: World, step: Step)
  {
    match step
    case Prepare => Prepare in w.ok && ComesUp(w)
    case Report => w.status == ReadyStatus || (w.status == Running && Report in w.ok)
    case _ => step in w.ok
  }

  const PROVISION: seq<Step> :=
    [RetainDeclared, Broker, Preflight, RetainAdditional, Prepare, Verify, Converge, Routes]

  const SETTLE: seq<Step> := [Retire, Realize, Fingerprint, CollectStatus, RecordVerified, Report]

  /** The steps in front of the first write: an edit is authorized only after its mutation. */
  function Entry(edit: bool): seq<Step>
  {
    if edit then [TakeLock, Core, PlanRetirement, Mutate, Rebuild, Reauthorize, Replan]
    else [TakeLock, Core, Authorize, PlanRetirement]
  }

  /** What follows, from the first write on. */
  function Converging(): seq<Step> { [RecordApplying] + (PROVISION + (SETTLE + [Audit])) }

  /** All steps of a run, in order. */
  function PathOf(remote: bool, edit: bool): seq<Step>
  {
    [Resolve] + if remote then [] else Entry(edit) + Converging()
  }

  /** `failed` is the first step of the row that does not succeed, if there is one. */
  ghost predicate FailsFirst(w: World, steps: seq<Step>, failed: Option<Step>)
  {
    match failed
    case None => forall i :: 0 <= i < |steps| ==> Succeeds(w, steps[i])
    case Some(step) => exists i: nat :: FailsAt(w, steps, i, step)
  }

  ghost predicate FailsAt(w: World, steps: seq<Step>, i: nat, step: Step)
  {
    && i < |steps| && steps[i] == step && !Succeeds(w, step)
    && forall j :: 0 <= j < i ==> Succeeds(w, steps[j])
  }

  lemma FailsHere(w: World, steps: seq<Step>, i: nat)
    requires i < |steps| && !Succeeds(w, steps[i]) && forall j :: 0 <= j < i ==> Succeeds(w, steps[j])
    ensures FailsFirst(w, steps, Some(steps[i]))
  {
    assert FailsAt(w, steps, i, steps[i]);
  }

  /** The first failing step of each half of the convergence. */
  function RetainFailure(w: World): Option<Step>
  {
    if RetainDeclared !in w.ok then Some(RetainDeclared)
    else if Broker !in w.ok then Some(Broker)
    else if Preflight !in w.ok then Some(Preflight)
    else if RetainAdditional !in w.ok then Some(RetainAdditional)
    else None
  }

  ghost function ProvisionFailure(w: World): Option<Step>
  {
    if RetainFailure(w).Some? then RetainFailure(w)
    else if !Succeeds(w, Prepare) then Some(Prepare)
    else if Verify !in w.ok then Some(Verify)
    else if Converge !in w.ok then Some(Converge)
    else if Routes !in w.ok then Some(Routes)
    else None
  }

  ghost function SettleFailure(w: World): Option<Step>
  {
    if Retire !in w.ok then Some(Retire)
    else if Realize !in w.ok then Some(Realize)
    else if Fingerprint !in w.ok then Some(Fingerprint)
    else if CollectStatus !in w.ok then Some(CollectStatus)
    else if RecordVerified !in w.ok then Some(RecordVerified)
    else if !Succeeds(w, Report) then Some(Report)
    else None
  }

  lemma ProvisionFailsFirst(w: World)
    ensures FailsFirst(w, PROVISION, ProvisionFailure(w))
  {
    match ProvisionFailure(w)
    case Some(RetainDeclared) => FailsHere(w, PROVISION, 0);
    case Some(Broker) => FailsHere(w, PROVISION, 1);
    case Some(Preflight) => FailsHere(w, PROVISION, 2);
    case Some(RetainAdditional) => FailsHere(w, PROVISION, 3);
    case Some(Prepare) => FailsHere(w, PROVISION, 4);
    case Some(Verify) => FailsHere(w, PROVISION, 5);
    case Some(Converge) => FailsHere(w, PROVISION, 6);
    case Some(Routes) => FailsHere(w, PROVISION, 7);
    case None =>
  }

  lemma SettleFailsFirst(w: World)
    ensures FailsFirst(w, SETTLE, SettleFailure(w))
  {
    match SettleFailure(w)
    case Some(Retire) => FailsHere(w, SETTLE, 0);
    case Some(Realize) => FailsHere(w, SETTLE, 1);
    case Some(Fingerprint) => FailsHere(w, SETTLE, 2);
    case Some(CollectStatus) => FailsHere(w, SETTLE, 3);
    case Some(RecordVerified) => FailsHere(w, SETTLE, 4);
    case Some(Report) => FailsHere(w, SETTLE, 5);
    case None =>
  }

  function CauseOf(r: Ending): Option<Step> { if r.Ok? then None else Some(r.error.cause) }

  ghost function ConvergingFailure(w: World): Option<Step>
  {
    if RecordApplying !in w.ok then Some(RecordApplying) else CarryFailure(w)
  }

  ghost function WorkFailure(w: World): Option<Step>
  {
    if ProvisionFailure(w).Some? then ProvisionFailure(w) else SettleFailure(w)
  }

  ghost function CarryFailure(w: World): Option<Step>
  {
    if WorkFailure(w).Some? then WorkFailure(w)
    else if Audit !in w.ok then Some(Audit)
    else None
  }

  lemma OneStep(w: World, step: Step)
    ensures FailsFirst(w, [step], if Succeeds(w, step) then None else Some(step))
  {
    if !Succeeds(w, step) { FailsHere(w, [step], 0); }
  }

  lemma FailsThen(w: World, steps: seq<Step>, more: seq<Step>, a: Option<Step>, b: Option<Step>)
    requires FailsFirst(w, steps, a) && FailsFirst(w, more, b)
    ensures FailsFirst(w, steps + more, if a.Some? then a else b)
  {
    if a.Some? { FailsInFront(w, steps, more, a.value); } else { FailsBehind(w, steps, more, b); }
  }

  lemma ConvergingFailsFirst(w: World)
    ensures FailsFirst(w, Converging(), ConvergingFailure(w))
  {
    ProvisionFailsFirst(w);
    SettleFailsFirst(w);
    OneStep(w, RecordApplying);
    OneStep(w, Audit);
    var audit := if Succeeds(w, Audit) then None else Some(Audit);
    FailsThen(w, SETTLE, [Audit], SettleFailure(w), audit);
    var settle := if SettleFailure(w).Some? then SettleFailure(w) else audit;
    FailsThen(w, PROVISION, SETTLE + [Audit], ProvisionFailure(w), settle);
    var provision := if ProvisionFailure(w).Some? then ProvisionFailure(w) else settle;
    FailsThen(w, [RecordApplying], PROVISION + (SETTLE + [Audit]),
              if Succeeds(w, RecordApplying) then None else Some(RecordApplying), provision);
  }

  ghost function EntryFailure(w: World, edit: bool): Option<Step>
  {
    if TakeLock !in w.ok then Some(TakeLock)
    else if Core !in w.ok then Some(Core)
    else if !edit && Authorize !in w.ok then Some(Authorize)
    else if PlanRetirement !in w.ok then Some(PlanRetirement)
    else if !edit then None
    else if Mutate !in w.ok then Some(Mutate)
    else if Rebuild !in w.ok then Some(Rebuild)
    else if Reauthorize !in w.ok then Some(Reauthorize)
    else if Replan !in w.ok then Some(Replan)
    else None
  }

  lemma EntryFailsFirst(w: World, edit: bool)
    ensures FailsFirst(w, Entry(edit), EntryFailure(w, edit))
  {
    var k := if edit then 0 else 1;
    match EntryFailure(w, edit)
    case Some(TakeLock) => FailsHere(w, Entry(edit), 0);
    case Some(Core) => FailsHere(w, Entry(edit), 1);
    case Some(Authorize) => FailsHere(w, Entry(edit), 2);
    case Some(PlanRetirement) => FailsHere(w, Entry(edit), 2 + k);
    case Some(Mutate) => FailsHere(w, Entry(edit), 3);
    case Some(Rebuild) => FailsHere(w, Entry(edit), 4);
    case Some(Reauthorize) => FailsHere(w, Entry(edit), 5);
    case Some(Replan) => FailsHere(w, Entry(edit), 6);
    case None =>
  }

  ghost function RunFailure(w: World, edit: bool): Option<Step>
  {
    if Resolve !in w.ok then Some(Resolve)
    else if w.remote then None
    else if EntryFailure(w, edit).Some? then EntryFailure(w, edit)
    else ConvergingFailure(w)
  }

  /** A run ends at the one first step of its path that does not succeed; so it succeeds exactly if all do. */
  lemma RunFailsFirst(w: World, edit: bool)
    ensures FailsFirst(w, PathOf(w.remote, edit), RunFailure(w, edit))
    ensures forall failed :: FailsFirst(w, PathOf(w.remote, edit), failed) ==> failed == RunFailure(w, edit)
    ensures RunFailure(w, edit).None? <==>
      forall i :: 0 <= i < |PathOf(w.remote, edit)| ==> Succeeds(w, PathOf(w.remote, edit)[i])
  {
    OneStep(w, Resolve);
    EntryFailsFirst(w, edit);
    ConvergingFailsFirst(w);
    var rest := if EntryFailure(w, edit).Some? then EntryFailure(w, edit) else ConvergingFailure(w);
    FailsThen(w, Entry(edit), Converging(), EntryFailure(w, edit), ConvergingFailure(w));
    assert FailsFirst(w, [], None);
    FailsThen(w, [Resolve], if w.remote then [] else Entry(edit) + Converging(),
              if Succeeds(w, Resolve) then None else Some(Resolve), if w.remote then None else rest);
    FailureIsExact(w, PathOf(w.remote, edit), RunFailure(w, edit));
    forall failed | FailsFirst(w, PathOf(w.remote, edit), failed) ensures failed == RunFailure(w, edit) {
      FirstFailureIsDetermined(w, PathOf(w.remote, edit), failed, RunFailure(w, edit));
    }
  }

  lemma FailureIsExact(w: World, steps: seq<Step>, failed: Option<Step>)
    requires FailsFirst(w, steps, failed)
    ensures failed.None? <==> forall i :: 0 <= i < |steps| ==> Succeeds(w, steps[i])
  {
    match failed
    case None =>
    case Some(step) =>
      var i: nat :| FailsAt(w, steps, i, step);
      assert !Succeeds(w, steps[i]);
  }

  /** There is at most one first failing step. */
  lemma FirstFailureIsDetermined(w: World, steps: seq<Step>, a: Option<Step>, b: Option<Step>)
    requires FailsFirst(w, steps, a) && FailsFirst(w, steps, b)
    ensures a == b
  {
    if a.Some? && b.Some? {
      var i: nat :| FailsAt(w, steps, i, a.value);
      var j: nat :| FailsAt(w, steps, j, b.value);
      assert i == j;
    }
  }

  lemma FailsInFront(w: World, steps: seq<Step>, more: seq<Step>, step: Step)
    requires FailsFirst(w, steps, Some(step))
    ensures FailsFirst(w, steps + more, Some(step))
  {
    var i: nat :| FailsAt(w, steps, i, step);
    assert FailsAt(w, steps + more, i, step);
  }

  lemma FailsBehind(w: World, steps: seq<Step>, more: seq<Step>, failed: Option<Step>)
    requires FailsFirst(w, steps, None) && FailsFirst(w, more, failed)
    ensures FailsFirst(w, steps + more, failed)
  {
    if failed.Some? {
      var i: nat :| FailsAt(w, more, i, failed.value);
      assert FailsAt(w, steps + more, |steps| + i, failed.value);
    }
  }

  function Bound(bindings: set<(Consumer, Provider)>): set<Provider>
  {
    set b | b in bindings :: b.1
  }

  function Others(bindings: set<(Consumer, Provider)>, me: Consumer): set<(Consumer, Provider)>
  {
    set b | b in bindings && b.0 != me
  }

  function BoundBy(bindings: set<(Consumer, Provider)>, c: Consumer): set<Provider>
  {
    set b | b in bindings && b.0 == c :: b.1
  }

  /** Equal bindings of all others include those of every other single consumer. */
  lemma OthersIncludeEach(a: set<(Consumer, Provider)>, b: set<(Consumer, Provider)>, me: Consumer, c: Consumer)
    requires Others(a, me) == Others(b, me) && c != me
    ensures BoundBy(a, c) == BoundBy(b, c)
  {
    forall x | x in a && x.0 == c ensures x in b { assert x in Others(a, me); }
    forall x | x in b && x.0 == c ensures x in a { assert x in Others(b, me); }
  }

  function Mine(d: Desired): set<(Consumer, Provider)>
  {
    set p | p in d.All() :: (d.me, p)
  }

  /** Providers that this application asks for or anybody else is bound to. */
  function Needed(bindings: set<(Consumer, Provider)>, d: Desired): set<Provider>
  {
    Bound(Others(bindings, d.me)) + d.All()
  }

  /** Providers this application releases and nobody else is bound to. */
  function Retirable(bindings: set<(Consumer, Provider)>, d: Desired): set<Provider>
  {
    Bound(bindings) - Bound(Others(bindings, d.me)) - d.All()
  }

  /** What holds in every state a run passes through, relative to the state it started in. */
  ghost predicate Sound(start: Snapshot, d: Desired, s: Snapshot)
  {
    && s.runtime <= s.instances
    && s.runtime <= start.runtime + d.All()
    && start.instances <= s.instances
    && Others(s.bindings, d.me) == Others(start.bindings, d.me)
    && s.runtime * Bound(start.bindings) <= Bound(s.bindings)
  }

  /** The bindings are the desired ones, and nothing that they released still runs. */
  ghost predicate Released(start: Snapshot, d: Desired, s: Snapshot)
  {
    && s.bindings == Others(start.bindings, d.me) + Mine(d)
    && s.runtime !! Retirable(start.bindings, d)
  }

  /** The record of every state after the first write of a run says that it is under way or has failed,
      unless retirement and bindings are settled. */
  ghost predicate Marked(start: Snapshot, d: Desired, s: Snapshot)
  {
    s.record in {Some(Applying), Some(Failed)} || Released(start, d, s)
  }

  // ---------- where a run ends ----------

  /** One run that is asked for: the desired state, that of the edited source if it is an edit, and what
      the run meets. */
  type Order = (Desired, Option<Desired>, World)

  predicate Bounded(runs: seq<Order>) { forall i :: 0 <= i < |runs| ==> |runs[i].2.attempts| == MAX_ATTEMPTS }

  /** What a run that is carried out is for. */
  function DesiredOf(run: Order): Desired { if run.1.Some? then run.1.value else run.0 }

  /** The steps whose failure is returned without a word in the record. */
  predicate Silent(step: Step)
  {
    || step.Resolve? || step.TakeLock? || step.Authorize? || step.Mutate? || step.Rebuild? || step.Reauthorize?
    || step.RecordApplying? || step.Audit?
  }

  /** The steps in front of the first write. */
  predicate Early(step: Step)
  {
    || step.Resolve? || step.TakeLock? || step.Core? || step.Authorize? || step.PlanRetirement? || step.Mutate?
    || step.Rebuild? || step.Reauthorize? || step.Replan? || step.RecordApplying?
  }

  /** Whether the failure of a step is to be recorded: in front of the first write only over an existing record. */
  predicate Recorded(before: Option<State>, cause: Step)
  {
    !Silent(cause) && (Early(cause) ==> before.Some?)
  }

  /** The record without that of the failure. */
  function Progress(before: Option<State>, w: World, failed: Option<Step>): Option<State>
  {
    match failed
    case None => Some(Observed(w.status))
    case Some(step) =>
      if Early(step) then before
      else if step.Report? || step.Audit? then Some(Observed(w.status))
      else Some(Applying)
  }

  function RecordAfter(before: Option<State>, w: World, failed: Option<Step>): Option<State>
  {
    if failed.Some? && Recorded(before, failed.value) && w.failureRecorded then Some(Failed)
    else Progress(before, w, failed)
  }

  /** The steps between the two writes that retain owners, and the second of them. */
  predicate BeforeAdditional(step: Step) { step.Broker? || step.Preflight? || step.RetainAdditional? }

  /** The steps behind the release of the bindings. */
  predicate AfterRelease(step: Step)
  {
    step.Fingerprint? || step.CollectStatus? || step.RecordVerified? || step.Report? || step.Audit?
  }

  function OwnersAfter(before: set<Provider>, d: Desired, failed: Option<Step>): set<Provider>
  {
    if failed == Some(RetainDeclared) then before
    else if failed.Some? && BeforeAdditional(failed.value) then before + d.declared
    else before + d.All()
  }

  /** Bindings are released only after everything else has succeeded up to the retirement. */
  function BindingsAfter(before: set<(Consumer, Provider)>, d: Desired, failed: Option<Step>): set<(Consumer, Provider)>
  {
    if failed.None? || AfterRelease(failed.value) then Others(before, d.me) + Mine(d) else before
  }

  /** What runs after the preparation of the runtime. */
  function Prepared(before: set<Provider>, all: set<Provider>, w: World): set<Provider>
    requires |w.attempts| == MAX_ATTEMPTS
  {
    var up := before + w.prepareCreates * all;
    if Prepare in w.ok && w.scoped && w.environmentOk then AfterAttempts(up, w.attempts, 0, all) else up
  }

  /** What runs after the broker step, if it is reached. */
  function BrokerStarted(before: set<Provider>, d: Desired, w: World, failed: Option<Step>): set<Provider>
  {
    if failed == Some(RetainDeclared) then before else before + w.brokerCreates * d.declared
  }

  function Provisioned(before: set<Provider>, d: Desired, w: World, failed: Option<Step>): set<Provider>
    requires |w.attempts| == MAX_ATTEMPTS
  {
    var up := BrokerStarted(before, d, w, failed);
    if failed.Some? && (failed.value.RetainDeclared? || BeforeAdditional(failed.value)) then up
    else if failed == Some(Prepare) || failed == Some(Verify) then Prepared(up, d.All(), w)
    else Prepared(up, d.All(), w) + w.convergeCreates * d.All()
  }

  function Retired(before: set<Provider>, bindings: set<(Consumer, Provider)>, d: Desired, w: World): set<Provider>
  {
    var unneeded := w.retires - Needed(bindings, d);
    before - if Retire in w.ok then Retirable(bindings, d) + unneeded else unneeded
  }

  /** What runs at the end: retirement is reached exactly if the provisioning has not failed. */
  ghost function RuntimeAfter(s: Snapshot, d: Desired, w: World): set<Provider>
    requires |w.attempts| == MAX_ATTEMPTS
  {
    var up := Provisioned(s.runtime, d, w, ProvisionFailure(w));
    if ProvisionFailure(w).Some? then up else Retired(up, s.bindings, d, w)
  }

  lemma OwnersOfSettling(before: set<Provider>, d: Desired, w: World)
    ensures OwnersAfter(before, d, SettleFailure(w)) == OwnersAfter(before, d, None)
  {
  }

  /** The state in which a run that reached its first write ends. */
  ghost function Converged(s: Snapshot, d: Desired, w: World): Snapshot
    requires |w.attempts| == MAX_ATTEMPTS
  {
    if RecordApplying in w.ok then CarriedOut(s, d, w) else s
  }

  ghost function CarriedOut(s: Snapshot, d: Desired, w: World): Snapshot
    requires |w.attempts| == MAX_ATTEMPTS
  {
    var failed := CarryFailure(w);
      Snapshot(OwnersAfter(s.instances, d, failed), BindingsAfter(s.bindings, d, failed), RuntimeAfter(s, d, w),
               RecordAfter(s.record, w, failed))
  }

  /** The state in which a run ends: in front of the first write only the record may change. */
  ghost function Finished(s: Snapshot, d: Desired, edited: Option<Desired>, w: World): Snapshot
    requires |w.attempts| == MAX_ATTEMPTS
  {
    var refused := EntryFailure(w, edited.Some?);
    if Resolve !in w.ok || w.remote then s
    else if refused.Some? then s.(record := RecordAfter(s.record, w, refused))
    else Converged(s, if edited.Some? then edited.value else d, w)
  }

  /** What a run returns: its first failing step, and whether recording that failure failed. */
  ghost function EndingOf(before: Option<State>, edit: bool, w: World): Ending
  {
    match RunFailure(w, edit)
    case None => Ok(())
    case Some(cause) => Err(Failure(cause, LosesRecord(before, cause, w)))
  }

  lemma EndsSo(r: Ending, before: Option<State>, edit: bool, w: World)
    requires CauseOf(r) == RunFailure(w, edit)
    requires r.Err? ==> (r.error.recordLost <==> LosesRecord(before, r.error.cause, w))
    ensures r == EndingOf(before, edit, w)
  {
    match r
    case Ok(nothing) => assert nothing == ();
    case Err(f) => assert f == Failure(f.cause, f.recordLost);
  }

  /** The state after the first `n` runs. */
  ghost function FinishedMany(s: Snapshot, runs: seq<Order>, n: nat): Snapshot
    requires n <= |runs| && Bounded(runs)
  {
    if n == 0 then s
    else Finished(FinishedMany(s, runs, n - 1), runs[n - 1].0, runs[n - 1].1, runs[n - 1].2)
  }

  /** What the first `n` runs return. */
  ghost function EndingsOf(s: Snapshot, runs: seq<Order>, n: nat): seq<Ending>
    requires n <= |runs| && Bounded(runs)
  {
    if n == 0 then []
    else
      EndingsOf(s, runs, n - 1)
      + [EndingOf(FinishedMany(s, runs, n - 1).record, runs[n - 1].1.Some?, runs[n - 1].2)]
  }

  /** Whatever was asked for before and however it failed: a run that succeeds leaves its application bound
      to exactly what it asks for, with owners for all of it and nothing running that it alone released. */
  lemma LastSuccessDecides(s: Snapshot, runs: seq<Order>, n: nat)
    requires 0 < n <= |runs| && Bounded(runs)
    requires !runs[n - 1].2.remote && RunFailure(runs[n - 1].2, runs[n - 1].1.Some?) == None
    ensures var before, after := FinishedMany(s, runs, n - 1), FinishedMany(s, runs, n);
            var d := DesiredOf(runs[n - 1]);
            && BoundBy(after.bindings, d.me) == d.All() && Others(after.bindings, d.me) == Others(before.bindings, d.me)
            && d.All() <= after.instances && after.runtime !! Retirable(before.bindings, d)
            && after.record == Some(Observed(runs[n - 1].2.status))
  {
    var before := FinishedMany(s, runs, n - 1);
    var d := DesiredOf(runs[n - 1]);
    ReconciledBindings(before.bindings, d);
    BoundToDesired(before.bindings, d);
  }

  lemma BoundToDesired(bs: set<(Consumer, Provider)>, d: Desired)
    ensures BoundBy(Others(bs, d.me) + Mine(d), d.me) == d.All()
  {
    forall p | p in d.All() ensures p in BoundBy(Others(bs, d.me) + Mine(d), d.me) { assert (d.me, p) in Mine(d); }
  }

  /** The last record depends only on the record before and on the step that failed. */
  lemma LastRecord(s: Snapshot, d: Desired, edited: Option<Desired>, w: World)
    requires |w.attempts| == MAX_ATTEMPTS && !w.remote
    ensures Finished(s, d, edited, w).record == RecordAfter(s.record, w, RunFailure(w, edited.Some?))
  {
  }

  /** "Applying" stays behind exactly if a step after the first write failed, other than the final report
      and the audit, and recording the failure failed too; or if it was there before and the run ended
      without writing a record. */
  lemma ApplyingStaysExactly(before: Option<State>, w: World, failed: Option<Step>)
    ensures RecordAfter(before, w, failed) == Some(Applying) <==>
      failed.Some? && var cause := failed.value;
      if Early(cause) then before == Some(Applying) && !(Recorded(before, cause) && w.failureRecorded)
      else !cause.Report? && !cause.Audit? && !w.failureRecorded
  {
  }

  /** Whether a run says that recording its failure failed. */
  predicate LosesRecord(before: Option<State>, cause: Step, w: World)
  {
    Recorded(before, cause) && !w.failureRecorded
  }

  class Target {
    var instances: set<Provider>
    var bindings: set<(Consumer, Provider)>
    var runtime: set<Provider>
    var record: Option<State>
    /** What the current execution was built for. */
    var desired: Desired
    /** Counts port reallocations; an environment is the count it was read at. */
    var allocation: nat
    ghost var trail: seq<Snapshot>
    /** The state in which the current run started, and where its part of the trail begins. */
    ghost var start: Snapshot
    ghost var from: nat
    /** The environment each start attempt was given. */
    ghost var starts: seq<nat>

    ghost function Now(): Snapshot
      reads this
    {
      Snapshot(instances, bindings, runtime, record)
    }

    /** Every running provider has a registry owner; the trail ends in the present state. */
    ghost predicate Owned()
      reads this
    {
      runtime <= instances && trail != [] && trail[|trail| - 1] == Now()
    }

    /** Every state since the run began is sound and marked. */
    ghost predicate Valid()
      reads this
    {
      && Owned() && from <= |trail| && Sound(start, desired, Now())
      && forall k :: from <= k < |trail| ==> Sound(start, desired, trail[k]) && Marked(start, desired, trail[k])
    }

    constructor (owners: set<Provider>, bs: set<(Consumer, Provider)>, rs: set<Provider>, r: Option<State>, d: Desired)
      requires rs <= owners
      ensures Owned() && Now() == Snapshot(owners, bs, rs, r) && desired == d
    {
      instances, bindings, runtime, record, desired, allocation := owners, bs, rs, r, d, 0;
      start, from := Snapshot(owners, bs, rs, r), 1;
      trail, starts := [Snapshot(owners, bs, rs, r)], [];
    }

    /** A new execution for `d`; nothing of it has happened yet. */
    method Build(d: Desired)
      requires Owned()
      modifies this`desired, this`start, this`from
      ensures Valid() && desired == d && start == Now() && from == |trail|
    {
      desired, start, from := d, Now(), |trail|;
    }

    // ---------- the writes ----------

    method WriteRecord(s: State, ok: bool)
      requires Valid() && (s in {Applying, Failed} || Released(start, desired, Now()))
      modifies this`record, this`trail
      ensures Valid() && old(trail) <= trail
      ensures record == if ok then Some(s) else old(record)
      ensures trail == if ok then old(trail) + [Now()] else old(trail)
    {
      if ok {
        record := Some(s);
        trail := trail + [Now()];
      }
    }

    /** `RetainPendingProviderOwnersAt`: adds owners, drops none, all or nothing. */
    method RetainOwners(owners: set<Provider>, ok: bool)
      requires Valid() && record == Some(Applying)
      modifies this`instances, this`trail
      ensures Valid() && old(trail) <= trail
      ensures instances == if ok then old(instances) + owners else old(instances)
    {
      if ok {
        instances := instances + owners;
        trail := trail + [Now()];
      }
    }

    /** Any step that starts containers: only for desired providers whose owners are retained. */
    method Create(created: set<Provider>)
      requires Valid() && record == Some(Applying) && bindings == start.bindings
      requires created <= desired.All() && created <= instances
      modifies this`runtime, this`trail
      ensures Valid() && old(trail) <= trail
      ensures runtime == old(runtime) + created
    {
      runtime := runtime + created;
      trail := trail + [Now()];
    }

    method Stop(stopped: set<Provider>)
      requires Valid() && record == Some(Applying)
      modifies this`runtime, this`trail
      ensures Valid() && old(trail) <= trail
      ensures runtime == old(runtime) - stopped
    {
      runtime := runtime - stopped;
      trail := trail + [Now()];
    }

    /** `ReconcileReferenceProviderRegistryAt`: replaces this application's bindings by the desired
        ones and registers their owners; owners of released bindings stay registered. */
    method Reconcile(ok: bool)
      requires Valid() && record == Some(Applying) && bindings == start.bindings
      requires runtime !! Retirable(bindings, desired)
      modifies this`instances, this`bindings, this`trail
      ensures Valid() && old(trail) <= trail
      ensures instances == if ok then old(instances) + desired.All() else old(instances)
      ensures bindings == if ok then Others(start.bindings, desired.me) + Mine(desired) else start.bindings
    {
      if ok {
        ReconciledBindings(bindings, desired);
        bindings := Others(bindings, desired.me) + Mine(desired);
        instances := instances + desired.All();
        trail := trail + [Now()];
      }
    }

    // ---------- the steps ----------

    /** `recordFailedDeployment`: marks an existing record as failed and returns the cause. */
    method Fail(cause: Step, recorded: bool, w: World) returns (r: Ending)
      requires Valid()
      modifies this`record, this`trail
      ensures Valid() && old(trail) <= trail
      ensures r == Err(Failure(cause, recorded && !w.failureRecorded))
      ensures trail == if recorded && w.failureRecorded then old(trail) + [Now()] else old(trail)
      ensures record == if recorded && w.failureRecorded then Some(Failed) else old(record)
    {
      if recorded { WriteRecord(Failed, w.failureRecorded); }
      return Err(Failure(cause, recorded && !w.failureRecorded));
    }

    /** One start in the given environment and, after a port conflict that is not the last, its cleanup
        and the reallocation of the ports. */
    method TryStart(a: Attempt, last: bool, environment: nat) returns (again: bool)
      requires Valid() && record == Some(Applying) && bindings == start.bindings && desired.All() <= instances
      modifies this`runtime, this`trail, this`allocation, this`starts
      ensures Valid() && old(trail) <= trail
      ensures again <==> !last && Retried(a)
      ensures starts == old(starts) + [environment]
      ensures runtime == AfterAttempt(old(runtime), a, last, desired.All())
      ensures allocation ==
        old(allocation) + if a.up == PortConflict && !last && a.downOk && a.reallocated then 1 else 0
    {
      starts := starts + [environment];
      Create(a.created * desired.All());
      if a.up != PortConflict || last { return false; }
      Stop(Cleaned(a, desired.All()));
      if !a.downOk { return false; }
      if !a.reallocated { return false; }
      allocation := allocation + 1;
      if !a.environmentOk { return false; }
      return a.configOk;
    }

    /** `startManagedRuntime`: nothing to do without application-scoped services, else up to three
        attempts; a port conflict is cleaned up, the ports are reallocated and the environment is read
        again before the next attempt. */
    method StartManagedRuntime(w: World) returns (ok: bool)
      requires Valid() && record == Some(Applying) && bindings == start.bindings && desired.All() <= instances
      requires |w.attempts| == MAX_ATTEMPTS
      modifies this`runtime, this`trail, this`allocation, this`starts
      ensures Valid() && old(trail) <= trail
      ensures ok <==> ComesUp(w)
      ensures !w.scoped || !w.environmentOk ==> starts == old(starts) && runtime == old(runtime)
      ensures w.scoped && w.environmentOk ==>
        && old(starts) <= starts && |starts| == |old(starts)| + Tries(w.attempts, 0)
        && runtime == AfterAttempts(old(runtime), w.attempts, 0, desired.All())
      ensures forall i :: |old(starts)| <= i < |starts| ==> starts[i] == old(allocation) + i - |old(starts)|
    {
      if !w.scoped { return true; }
      if !w.environmentOk { return false; }
      for k := 0 to MAX_ATTEMPTS
        invariant Valid() && old(trail) <= trail && bindings == start.bindings && desired == old(desired)
        invariant old(starts) <= starts && |starts| == |old(starts)| + k && k < MAX_ATTEMPTS
        invariant allocation == old(allocation) + k
        invariant forall i :: |old(starts)| <= i < |starts| ==> starts[i] == old(allocation) + i - |old(starts)|
        invariant Reached(w.attempts, k, old(runtime), runtime, desired.All())
      {
        ghost var before := runtime;
        var again := TryStart(w.attempts[k], k + 1 == MAX_ATTEMPTS, allocation);
        if !again {
          AttemptsEnd(w, k, old(runtime), before, desired.All());
          return w.attempts[k].up == Started && w.reconciled;
        }
      }
      return false;
    }

    /** `prepareManagedRuntime`: shared and managed providers first, then the managed runtime; it succeeds
        exactly with both, and starts nothing unless the providers were prepared. */
    method PrepareRuntime(w: World) returns (ok: bool)
      requires Valid() && record == Some(Applying) && bindings == start.bindings && desired.All() <= instances
      requires |w.attempts| == MAX_ATTEMPTS
      modifies this`runtime, this`trail, this`allocation, this`starts
      ensures Valid() && old(trail) <= trail
      ensures ok <==> Succeeds(w, Prepare)
      ensures runtime == Prepared(old(runtime), desired.All(), w)
      ensures Prepare !in w.ok || !w.scoped || !w.environmentOk ==> starts == old(starts)
      ensures Prepare in w.ok && w.scoped && w.environmentOk ==>
        old(starts) <= starts && |starts| == |old(starts)| + Tries(w.attempts, 0)
    {
      Create(w.prepareCreates * desired.All());
      if Prepare !in w.ok { return false; }
      ok := StartManagedRuntime(w);
    }

    /** `retireReleasedApplicationProviders`: removes providers that nobody needs, this application's
        released ones and older unbound ones; when it succeeds, every provider this application released
        alone is gone. */
    method RetireReleased(w: World) returns (ok: bool)
      requires Valid() && record == Some(Applying) && bindings == start.bindings
      modifies this`runtime, this`trail
      ensures Valid() && old(trail) <= trail
      ensures ok <==> Retire in w.ok
      ensures runtime == Retired(old(runtime), bindings, desired, w)
      ensures ok ==> runtime !! Retirable(bindings, desired)
      ensures runtime <= old(runtime) && old(runtime) * Needed(bindings, desired) <= runtime
    {
      ok := Retire in w.ok;
      var unneeded := w.retires - Needed(bindings, desired);
      Stop(if ok then Retirable(bindings, desired) + unneeded else unneeded);
    }

    /** Both writes that retain owners, with the broker and the preflight between them. */
    method Retain(w: World) returns (failed: Option<Step>)
      requires Valid() && record == Some(Applying) && bindings == start.bindings
      modifies this`instances, this`runtime, this`trail
      ensures Valid() && old(trail) <= trail
      ensures failed == RetainFailure(w)
      ensures instances == OwnersAfter(old(instances), desired, failed)
      ensures runtime == BrokerStarted(old(runtime), desired, w, failed)
    {
      RetainOwners(desired.declared, RetainDeclared in w.ok);
      if RetainDeclared !in w.ok { return Some(RetainDeclared); }
      Create(w.brokerCreates * desired.declared);
      if Broker !in w.ok { return Some(Broker); }
      if Preflight !in w.ok { return Some(Preflight); }
      RetainOwners(desired.All(), RetainAdditional in w.ok);
      if RetainAdditional !in w.ok { return Some(RetainAdditional); }
      assert old(instances) + desired.declared + desired.All() == old(instances) + desired.All();
      return None;
    }

    /** Owners first, containers second: everything up to the converged application runtime. */
    method Provision(w: World) returns (failed: Option<Step>)
      requires Valid() && record == Some(Applying) && bindings == start.bindings && |w.attempts| == MAX_ATTEMPTS
      modifies this`instances, this`runtime, this`trail, this`allocation, this`starts
      ensures Valid() && old(trail) <= trail
      ensures instances == OwnersAfter(old(instances), desired, failed)
      ensures runtime == Provisioned(old(runtime), desired, w, failed)
      ensures failed == ProvisionFailure(w)
    {
      failed := Retain(w);
      if failed.Some? { return; }
      var prepared := PrepareRuntime(w);
      if !prepared { return Some(Prepare); }
      if Verify !in w.ok { return Some(Verify); }
      Create(w.convergeCreates * desired.All());
      if Converge !in w.ok { return Some(Converge); }
      if Routes !in w.ok { return Some(Routes); }
      return None;
    }

    /** What is no longer needed stops before its bindings are given up. */
    method Release(w: World) returns (failed: Option<Step>)
      requires Valid() && record == Some(Applying) && bindings == start.bindings && desired.All() <= instances
      modifies this`instances, this`bindings, this`runtime, this`trail
      ensures Valid() && old(trail) <= trail
      ensures failed == if Retire !in w.ok then Some(Retire) else if Realize !in w.ok then Some(Realize) else None
      ensures instances == old(instances) && bindings == BindingsAfter(old(bindings), desired, failed)
      ensures runtime == Retired(old(runtime), old(bindings), desired, w)
      ensures failed.None? ==> Released(start, desired, Now())
    {
      var retired := RetireReleased(w);
      if !retired { return Some(Retire); }
      Reconcile(Realize in w.ok);
      if Realize !in w.ok { return Some(Realize); }
      return None;
    }

    /** Retirement first, release of bindings second, then the verified record. A run that did not
        establish readiness is reported as a failure after its observation has been recorded. */
    method Settle(w: World) returns (failed: Option<Step>)
      requires Valid() && record == Some(Applying) && bindings == start.bindings && desired.All() <= instances
      modifies this`instances, this`bindings, this`runtime, this`record, this`trail
      ensures Valid() && old(trail) <= trail
      ensures instances == old(instances) && bindings == BindingsAfter(old(bindings), desired, failed)
      ensures runtime == Retired(old(runtime), old(bindings), desired, w)
      ensures record == Progress(old(record), w, failed)
      ensures failed.None? ==> Settled(w)
      ensures failed == SettleFailure(w)
    {
      failed := Release(w);
      if failed.Some? { return; }
      if Fingerprint !in w.ok { return Some(Fingerprint); }
      if CollectStatus !in w.ok { return Some(CollectStatus); }
      WriteRecord(Observed(w.status), RecordVerified in w.ok);
      if RecordVerified !in w.ok { return Some(RecordVerified); }
      if w.status != ReadyStatus && !(w.status == Running && Report in w.ok) { return Some(Report); }
      return None;
    }

    /** What a successful run leaves behind. */
    ghost predicate Settled(w: World)
      reads this
    {
      && record == Some(Observed(w.status)) && w.status in {ReadyStatus, Running}
      && Released(start, desired, Now())
    }

    /** The part of the run that changes the Target. It starts by recording "applying" and changes
        nothing when that fails; afterwards it never returns with that record still in place,
        unless recording the failure failed too. */
    method ConvergeDesired(w: World) returns (r: Ending)
      requires Valid() && start == Now() && from == |trail| && |w.attempts| == MAX_ATTEMPTS
      modifies this`instances, this`bindings, this`runtime, this`record, this`trail, this`allocation, this`starts
      ensures Valid() && old(trail) <= trail
      ensures RecordApplying in w.ok ==> from < |trail| && trail[from].record == Some(Applying)
      ensures RecordApplying !in w.ok ==> Now() == start && trail == old(trail)
      ensures RecordApplying in w.ok && record == Some(Applying) ==> r.Err? && r.error.recordLost
      ensures r.Ok? ==> Settled(w)
      ensures CauseOf(r) == ConvergingFailure(w) && Now() == Converged(start, desired, w)
      ensures r.Err? ==> (r.error.recordLost <==> LosesRecord(start.record, r.error.cause, w))
    {
      WriteRecord(Applying, RecordApplying in w.ok);
      if RecordApplying !in w.ok { return Err(Failure(RecordApplying, false)); }
      r := CarryOut(w);
    }

    /** Everything after the first write. */
    method CarryOut(w: World) returns (r: Ending)
      requires Valid() && record == Some(Applying) && |w.attempts| == MAX_ATTEMPTS
      requires bindings == start.bindings
      modifies this`instances, this`bindings, this`runtime, this`record, this`trail, this`allocation, this`starts
      ensures Valid() && old(trail) <= trail
      ensures r.Ok? ==> Settled(w)
      ensures CauseOf(r) == CarryFailure(w)
      ensures Now() == CarriedOut(old(Now()), desired, w)
      ensures r.Err? ==> (r.error.recordLost <==> !r.error.cause.Audit? && !w.failureRecorded)
    {
      var failed := Work(w);
      r := Close(failed, w);
    }

    /** The two halves. */
    method Work(w: World) returns (failed: Option<Step>)
      requires Valid() && record == Some(Applying) && |w.attempts| == MAX_ATTEMPTS
      requires bindings == start.bindings
      modifies this`instances, this`bindings, this`runtime, this`record, this`trail, this`allocation, this`starts
      ensures Valid() && old(trail) <= trail
      ensures failed == WorkFailure(w)
      ensures failed.None? ==> Settled(w)
      ensures instances == OwnersAfter(old(instances), desired, failed)
      ensures bindings == BindingsAfter(old(bindings), desired, failed)
      ensures runtime == RuntimeAfter(old(Now()), desired, w)
      ensures record == Progress(old(record), w, failed)
    {
      failed := Provision(w);
      if failed.None? {
        OwnersOfSettling(old(instances), desired, w);
        failed := Settle(w);
      }
    }

    /** The failure is recorded, or the success is audited. */
    method Close(failed: Option<Step>, w: World) returns (r: Ending)
      requires Valid() && (failed.Some? ==> !Silent(failed.value))
      modifies this`record, this`trail
      ensures Valid() && old(trail) <= trail
      ensures record == if failed.Some? && w.failureRecorded then Some(Failed) else old(record)
      ensures CauseOf(r) == if failed.None? && Audit !in w.ok then Some(Audit) else failed
      ensures r.Err? ==> (r.error.recordLost <==> !r.error.cause.Audit? && !w.failureRecorded)
    {
      if failed.Some? { r := Fail(failed.value, true, w); return; }
      if Audit !in w.ok { return Err(Failure(Audit, false)); }
      return Ok(());
    }

    /** Everything between the resolution of the source and the first write. */
    method Enter(d: Desired, edited: Option<Desired>, w: World) returns (r: Ending)
      requires Owned()
      modifies this`record, this`trail, this`desired, this`start, this`from
      ensures Owned() && old(trail) <= trail
      ensures CauseOf(r) == EntryFailure(w, edited.Some?)
      ensures r.Ok? ==>
        && Valid() && start == Now() == old(Now()) && from == |trail| && trail == old(trail)
        && desired == if edited.Some? then edited.value else d
      ensures r.Err? ==> Now() == old(Now()).(record := RecordAfter(old(record), w, Some(r.error.cause)))
      ensures r.Err? ==> (r.error.recordLost <==> LosesRecord(old(record), r.error.cause, w))
      ensures trail == old(trail) || (trail == old(trail) + [Now()] && record == Some(Failed))
    {
      if TakeLock !in w.ok { return Err(Failure(TakeLock, false)); }
      Build(d);
      var recorded := record.Some?;
      if Core !in w.ok { r := Fail(Core, recorded, w); return; }
      if edited.None? && Authorize !in w.ok { return Err(Failure(Authorize, false)); }
      if PlanRetirement !in w.ok { r := Fail(PlanRetirement, recorded, w); return; }
      if edited.Some? {
        if Mutate !in w.ok { return Err(Failure(Mutate, false)); }
        if Rebuild !in w.ok { return Err(Failure(Rebuild, false)); }
        Build(edited.value);
        if Reauthorize !in w.ok { return Err(Failure(Reauthorize, false)); }
        if Replan !in w.ok { r := Fail(Replan, recorded, w); return; }
      }
      return Ok(());
    }

    /** The apply run. An edit passes its mutation: it runs inside the lock, before the first write
        of the run, and the execution is rebuilt for the changed source. `edited` is the desired
        state of that source. */
    method Apply(d: Desired, edited: Option<Desired>, w: World) returns (r: Ending)
      requires Owned() && |w.attempts| == MAX_ATTEMPTS
      modifies this
      ensures Owned() && old(trail) <= trail
      ensures forall k :: |old(trail)| <= k < |trail| ==> trail[k].runtime <= trail[k].instances
      ensures forall k :: |old(trail)| <= k < |trail| ==>
                trail[k].runtime * Bound(old(bindings)) <= Bound(trail[k].bindings)
      ensures forall k :: |old(trail)| <= k < |trail| ==> old(instances) <= trail[k].instances
      ensures forall k :: |old(trail)| <= k < |trail| ==> OthersKeep((d, edited, w), old(bindings), trail[k].bindings)
      ensures Changed(old(Now())) ==> exists k :: |old(trail)| <= k < |trail| && trail[k].record == Some(Applying)
      ensures record == Some(Applying) ==> NeverApplying(trail, |old(trail)|) || (r.Err? && r.error.recordLost)
      ensures r.Ok? ==>
                || w.remote
                || (Settled(w) && start == old(Now()) && desired == if edited.Some? then edited.value else d)
      ensures r == EndingOf(old(record), edited.Some?, w) && Now() == Finished(old(Now()), d, edited, w)
      ensures forall k :: |old(trail)| <= k < |trail| ==>
                Marked(old(Now()), if edited.Some? then edited.value else d, trail[k])
    {
      if Resolve !in w.ok { return Err(Failure(Resolve, false)); }
      if w.remote { return Ok(()); }
      r := Enter(d, edited, w);
      if r.Err? { return; }
      r := ConvergeDesired(w);
      EndsSo(r, old(record), edited.Some?, w);
      forall k, c | |old(trail)| <= k < |trail| && c != desired.me
        ensures BoundBy(trail[k].bindings, c) == BoundBy(old(bindings), c)
      {
        OthersIncludeEach(trail[k].bindings, old(bindings), desired.me, c);
      }
    }

    /** Registry or runtime differ from an earlier state. */
    ghost predicate Changed(before: Snapshot)
      reads this
    {
      instances != before.instances || bindings != before.bindings || runtime != before.runtime
    }

    /** The next of a sequence of runs. */
    method ApplyNext(ghost first: Snapshot, runs: seq<Order>, i: nat) returns (r: Ending)
      requires Owned() && Bounded(runs) && i < |runs| && Now() == FinishedMany(first, runs, i)
      modifies this
      ensures Owned() && old(trail) <= trail && old(instances) <= instances
      ensures Now() == FinishedMany(first, runs, i + 1)
      ensures EndingsOf(first, runs, i + 1) == EndingsOf(first, runs, i) + [r]
      ensures forall k :: |old(trail)| <= k < |trail| ==>
        trail[k].runtime <= trail[k].instances && old(instances) <= trail[k].instances
      ensures forall k :: |old(trail)| <= k < |trail| ==> OthersKeep(runs[i], old(bindings), trail[k].bindings)
      ensures OthersKeep(runs[i], old(bindings), bindings)
      ensures record == Some(Applying) ==> NeverApplying(trail, |old(trail)|) || (r.Err? && r.error.recordLost)
    {
      r := Apply(runs[i].0, runs[i].1, runs[i].2);
    }

    /** Any sequence of runs, for any applications and sources, each of which may fail anywhere: in every
        state what runs has an owner, no owner is dropped, and consumers that no run is for keep their
        bindings; and "applying" stays the last record only if no run wrote it or one lost its failure. */
    method ApplyMany(runs: seq<Order>) returns (results: seq<Ending>)
      requires Owned() && Bounded(runs)
      modifies this
      ensures Owned() && old(trail) <= trail && |results| == |runs|
      ensures Now() == FinishedMany(old(Now()), runs, |runs|)
      ensures results == EndingsOf(old(Now()), runs, |runs|)
      ensures forall k :: |old(trail)| <= k < |trail| ==>
        trail[k].runtime <= trail[k].instances && old(instances) <= trail[k].instances
      ensures AllKeep(runs, old(bindings), trail, |old(trail)|)
      ensures Explained(record, trail, |old(trail)|, results)
    {
      results := [];
      ghost var first := Now();
      for i := 0 to |runs|
        invariant Owned() && old(trail) <= trail && |results| == i
        invariant Now() == FinishedMany(first, runs, i)
        invariant results == EndingsOf(first, runs, i)
        invariant old(instances) <= instances
        invariant UninvolvedKeep(runs, old(bindings), bindings)
        invariant forall k :: |old(trail)| <= k < |trail| ==>
          trail[k].runtime <= trail[k].instances && old(instances) <= trail[k].instances
        invariant AllKeep(runs, old(bindings), trail, |old(trail)|)
        invariant Explained(record, trail, |old(trail)|, results)
      {
        ghost var was, before, bound, written := trail, results, bindings, record;
        var r := ApplyNext(first, runs, i);
        results := results + [r];
        AllKeepThen(runs, i, old(bindings), bound, was, trail, |old(trail)|);
        KeepThen(runs, i, old(bindings), bound, bindings);
        ExplainedThen(written, record, was, trail, |old(trail)|, before, r);
      }
    }
  }

  /** No run of these is for the consumer. */
  predicate Uninvolved(runs: seq<Order>, c: Consumer)
  {
    forall i :: 0 <= i < |runs| ==> runs[i].0.me != c && (runs[i].1.Some? ==> runs[i].1.value.me != c)
  }

  ghost predicate UninvolvedKeep(runs: seq<Order>, before: set<(Consumer, Provider)>, now: set<(Consumer, Provider)>)
  {
    forall c :: Uninvolved(runs, c) ==> BoundBy(now, c) == BoundBy(before, c)
  }

  /** A run leaves the bindings of everybody it is not for. */
  ghost predicate OthersKeep(run: Order, before: set<(Consumer, Provider)>, now: set<(Consumer, Provider)>)
  {
    forall c :: c != run.0.me && (run.1.Some? ==> c != run.1.value.me) ==> BoundBy(now, c) == BoundBy(before, c)
  }

  lemma KeepThen(runs: seq<Order>, i: nat, before: set<(Consumer, Provider)>, mid: set<(Consumer, Provider)>,
                 now: set<(Consumer, Provider)>)
    requires i < |runs| && UninvolvedKeep(runs, before, mid) && OthersKeep(runs[i], mid, now)
    ensures UninvolvedKeep(runs, before, now)
  {
  }

  /** In every state from `from` on. */
  ghost predicate AllKeep(runs: seq<Order>, before: set<(Consumer, Provider)>, trail: seq<Snapshot>, from: nat)
  {
    forall k :: from <= k < |trail| ==> UninvolvedKeep(runs, before, trail[k].bindings)
  }

  lemma AllKeepThen(runs: seq<Order>, i: nat, before: set<(Consumer, Provider)>, mid: set<(Consumer, Provider)>,
                    was: seq<Snapshot>, trail: seq<Snapshot>, from: nat)
    requires i < |runs| && was <= trail && AllKeep(runs, before, was, from) && UninvolvedKeep(runs, before, mid)
    requires forall k :: |was| <= k < |trail| ==> OthersKeep(runs[i], mid, trail[k].bindings)
    ensures AllKeep(runs, before, trail, from)
  {
    forall k | from <= k < |trail| ensures UninvolvedKeep(runs, before, trail[k].bindings) {
      if |was| <= k { KeepThen(runs, i, before, mid, trail[k].bindings); } else { assert trail[k] == was[k]; }
    }
  }

  predicate NeverApplying(trail: seq<Snapshot>, from: nat)
  {
    forall k :: from <= k < |trail| ==> trail[k].record != Some(Applying)
  }

  /** "Applying" is the last record only if no run wrote it or one could not record its failure. */
  predicate Explained(record: Option<State>, trail: seq<Snapshot>, from: nat, results: seq<Ending>)
  {
    record == Some(Applying) ==> NeverApplying(trail, from) || SomeRecordLost(results)
  }

  lemma ExplainedThen(before: Option<State>, now: Option<State>, was: seq<Snapshot>, trail: seq<Snapshot>, from: nat,
                      results: seq<Ending>, r: Ending)
    requires Explained(before, was, from, results) && from <= |was| && was <= trail
    requires was != [] && was[|was| - 1].record == before && trail[|trail| - 1].record == now
    requires now == Some(Applying) ==> NeverApplying(trail, |was|) || (r.Err? && r.error.recordLost)
    ensures Explained(now, trail, from, results + [r])
  {
    LostStaysLost(results, r);
    assert now == Some(Applying) && NeverApplying(trail, |was|) ==> |trail| == |was|;
    if |trail| == |was| { assert trail == was; }
  }

  predicate SomeRecordLost(results: seq<Ending>)
  {
    exists i :: 0 <= i < |results| && results[i].Err? && results[i].error.recordLost
  }

  lemma LostStaysLost(results: seq<Ending>, r: Ending)
    ensures SomeRecordLost(results + [r]) <==> SomeRecordLost(results) || (r.Err? && r.error.recordLost)
  {
    var more := results + [r];
    if SomeRecordLost(results) {
      var i :| 0 <= i < |results| && results[i].Err? && results[i].error.recordLost;
      assert more[i] == results[i];
    }
    if r.Err? && r.error.recordLost { assert more[|results|] == r; }
  }

  lemma ReconciledBindings(bs: set<(Consumer, Provider)>, d: Desired)
    ensures var rs := Others(bs, d.me) + Mine(d);
            && Others(rs, d.me) == Others(bs, d.me)
            && Bound(rs) == Bound(Others(bs, d.me)) + d.All()
            && Bound(bs) - Retirable(bs, d) <= Bound(rs)
  {
    var rs := Others(bs, d.me) + Mine(d);
    forall p | p in d.All()
      ensures p in Bound(rs)
    {
      assert (d.me, p) in rs;
    }
    forall b | b in Others(bs, d.me)
      ensures b.1 in Bound(rs)
    {
      assert b in rs;
    }
  }
}
