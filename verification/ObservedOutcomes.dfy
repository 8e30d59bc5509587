/** What an apply run may claim about the approved impacts, from the facts measured before and after
    it and from the provider registry. The proposal itself is never evidence. */
module ObservedOutcomes {
  import opened Wrappers

  datatype State = Running | StoppedOwned | OtherState

  datatype Ownership = BaseHarbor | OtherOwnership

  datatype Scope = ApplicationScope | OtherScope

  datatype Kind = PostgreSQL | OtherKind

  /** One observation; `containers` is absent when the count has no value. */
  datatype Fact = Fact(target: string, state: State, measured: bool, containers: Option<int>,
                       ancillary: bool, ownerReference: string)

  type Facts = map<string, Fact>

  datatype Instance = Instance(id: string, kind: Kind, scope: Scope, ownership: Ownership,
                               ownerApplication: string, ownerEnvironment: string)

  /** Result of the consumer query that ran after the lifecycle. */
  datatype Inventory = Inventory(empty: bool, consumer: string, instance: string, evidence: string)

  datatype Evidence = Evidence(before: Facts, after: Facts, registry: seq<Instance>, sql: map<string, Inventory>)

  datatype Need = Need(consumer: string, function_: string, via: seq<string>, validUntil: string,
                       behavior: string, transition: bool)

  datatype Proposal = Proposal(instanceId: string, target: string, kind: Kind, scope: Scope, access: bool,
                               locations: nat)

  datatype Impact = Impact(instanceId: string, operation: string, after: Option<Proposal>, materials: nat,
                           effects: nat, functions: seq<Need>, continuations: nat)

  datatype Realization = Realization(instanceId: string, kind: Kind, target: string, scope: Scope,
                                     ownership: Ownership, owner: string, ancillary: bool, state: State)

  datatype Status = Applied | Pending

  datatype FunctionOutcome = FunctionOutcome(consumer: string, instanceId: string, evidence: string)

  datatype Outcome = Outcome(instanceId: string, operation: string, status: Status,
                             after: Option<Realization>, functions: seq<FunctionOutcome>)

  const NO_FACT := Fact("", OtherState, false, None, false, "")

  /** Indexing a map of facts yields the zero fact for an unknown key. */
  function At(facts: Facts, id: string): Fact { if id in facts then facts[id] else NO_FACT }

  // ---------- measured facts ----------

  predicate Present(target: string, f: Fact)
  {
    f.target == target && f.measured && f.containers.Some? && f.containers.value > 0
  }

  predicate IsRunning(target: string, f: Fact) { f.state == Running && Present(target, f) }

  predicate Absent(target: string, f: Fact) { f.target == target && f.measured && f.containers == Some(0) }

  predicate IsStopped(target: string, f: Fact) { f.state == StoppedOwned && Absent(target, f) }

  // ---------- the registry supplies identity and ownership ----------

  /** The first registry entry of this id that BaseHarbor owns. */
  function OwnedEntry(registry: seq<Instance>, id: string): (r: Option<Instance>)
    ensures r.Some? ==> r.value in registry && r.value.id == id && r.value.ownership == BaseHarbor
    ensures r.None? ==> forall i :: i in registry && i.id == id ==> i.ownership != BaseHarbor
  {
    if registry == [] then None
    else if registry[0].id == id && registry[0].ownership == BaseHarbor then Some(registry[0])
    else OwnedEntry(registry[1..], id)
  }

  /** The owner a registry entry names. */
  function RegistryOwner(i: Instance, target: string): string
  {
    if i.scope == ApplicationScope then i.ownerApplication else "target/" + target
  }

  /** An ancillary fact brings its own owner. */
  function Realized(i: Instance, target: string, fact: Fact): Realization
  {
    Realization(i.id, i.kind, target, i.scope, i.ownership,
                if fact.ancillary then fact.ownerReference else RegistryOwner(i, target), fact.ancillary, fact.state)
  }

  function Authoritative(registry: seq<Instance>, target: string, id: string, fact: Fact): Option<Realization>
  {
    if fact.target != "" && fact.target != target then None
    else match OwnedEntry(registry, id)
      case None => None
      case Some(i) => Some(Realized(i, target, fact))
  }

  method AuthoritativeRealization(registry: seq<Instance>, target: string, id: string, fact: Fact)
    returns (r: Option<Realization>)
    ensures r == Authoritative(registry, target, id, fact)
  {
    if fact.target != "" && fact.target != target { return None; }
    for k := 0 to |registry|
      invariant OwnedEntry(registry, id) == OwnedEntry(registry[k..], id)
    {
      var i := registry[k];
      assert registry[k..][1..] == registry[k + 1..];
      if i.id == id && i.ownership == BaseHarbor { return Some(Realized(i, target, fact)); }
    }
    return None;
  }

  // ---------- the four ways to an outcome ----------

  predicate Bare(impact: Impact)
  {
    impact.materials == 0 && impact.effects == 0 && impact.functions == [] && impact.continuations == 0
  }

  predicate Retirement(impact: Impact)
  {
    impact.operation in {"destroy", "remove-runtime", "retire"} && impact.after.None? && Bare(impact)
  }

  predicate Starting(operation: string) { operation == "add" || operation == "resume" || operation == "start" }

  function RetirementOutcome(target: string, impact: Impact, e: Evidence): Option<Outcome>
  {
    if Present(target, At(e.before, impact.instanceId)) && Absent(target, At(e.after, impact.instanceId))
    then Some(Outcome(impact.instanceId, impact.operation, Applied, None, []))
    else None
  }

  /** The measured change that a start, a stop or a replacement of `id` needs. */
  predicate Moved(target: string, impact: Impact, id: string, e: Evidence)
  {
    if impact.operation == "stop" then
      IsStopped(target, At(e.after, id)) && IsRunning(target, At(e.before, id))
    else
      && IsRunning(target, At(e.after, id)) && !IsRunning(target, At(e.before, id))
      && (impact.operation == "replace" ==>
            && Present(target, At(e.before, impact.instanceId))
            && impact.instanceId in e.after && Absent(target, e.after[impact.instanceId]))
  }

  function RealizationOutcome(target: string, impact: Impact, e: Evidence): Option<Outcome>
  {
    if impact.after.None? || impact.after.value.target != target || impact.after.value.access
       || impact.after.value.locations != 0 || !Bare(impact)
       || !(Starting(impact.operation) || impact.operation == "stop" || impact.operation == "replace") then None
    else
      var id := impact.after.value.instanceId;
      if id !in e.after || id !in e.before || !e.before[id].measured then None
      else
        var observed := Authoritative(e.registry, target, id, e.after[id]);
        if observed.None? || !Moved(target, impact, id, e) then None
        else Some(Outcome(impact.instanceId, impact.operation, Applied, observed, []))
  }

  predicate OwnsConsumer(i: Instance, id: string, consumer: string)
  {
    && i.id == id && i.ownerApplication != "" && i.scope == ApplicationScope && i.ownership == BaseHarbor
    && consumer == "application/" + i.ownerApplication + "/" + i.ownerEnvironment
  }

  predicate PlainQuery(n: Need, id: string, consumer: string)
  {
    && n.consumer == consumer && n.function_ == "database.sql" && n.via == [id]
    && n.validUntil == "" && n.behavior == "" && !n.transition
  }

  predicate NewSqlImpact(impact: Impact)
  {
    && (impact.operation == "add" || impact.operation == "resume")
    && impact.after.Some? && impact.after.value.kind == PostgreSQL && impact.after.value.scope == ApplicationScope
    && impact.materials == 0 && impact.effects == 0 && impact.continuations == 0 && impact.functions != []
    && !impact.after.value.access && impact.after.value.locations == 0
  }

  predicate EmptyInventory(inventory: Inventory)
  {
    inventory.empty && inventory.consumer != "" && inventory.instance != "" && inventory.evidence != ""
  }

  predicate AcceptableOwner(target: string, r: Realization)
  {
    r.owner != "" && (r.owner == "target/" + target || r.scope == ApplicationScope)
  }

  function Queried(id: string, inventory: Inventory, n: nat): (r: seq<FunctionOutcome>)
    ensures |r| == n
  {
    seq(n, _ => FunctionOutcome(inventory.consumer, id, inventory.evidence))
  }

  function SqlOutcome(target: string, impact: Impact, e: Evidence): Option<Outcome>
  {
    var id := impact.instanceId;
    if !NewSqlImpact(impact) || id !in e.before || id !in e.after
       || !Absent(target, e.before[id]) || !IsRunning(target, e.after[id]) then None
    else
      var actual := Authoritative(e.registry, target, id, e.after[id]);
      if actual.None? || id !in e.sql || !EmptyInventory(e.sql[id]) || !AcceptableOwner(target, actual.value)
         || (forall k :: 0 <= k < |e.registry| ==> !OwnsConsumer(e.registry[k], id, e.sql[id].consumer))
         || (exists k :: 0 <= k < |impact.functions| && !PlainQuery(impact.functions[k], id, e.sql[id].consumer)) then
        None
      else
        Some(Outcome(id, impact.operation, Applied, actual, Queried(id, e.sql[id], |impact.functions|)))
  }

  method SqlNewConsumer(target: string, impact: Impact, e: Evidence) returns (r: Option<Outcome>)
    ensures r == SqlOutcome(target, impact, e)
  {
    var id := impact.instanceId;
    if !NewSqlImpact(impact) || id !in e.before || id !in e.after { return None; }
    if !Absent(target, e.before[id]) || !IsRunning(target, e.after[id]) { return None; }
    var actual := AuthoritativeRealization(e.registry, target, id, e.after[id]);
    if actual.None? || id !in e.sql { return None; }
    var inventory := e.sql[id];
    if !EmptyInventory(inventory) || !AcceptableOwner(target, actual.value) { return None; }
    var matched := ConsumerIsOwned(e.registry, id, inventory.consumer);
    if !matched { return None; }
    var functions: seq<FunctionOutcome> := [];
    for k := 0 to |impact.functions|
      invariant functions == Queried(id, inventory, k)
      invariant forall j :: 0 <= j < k ==> PlainQuery(impact.functions[j], id, inventory.consumer)
    {
      if !PlainQuery(impact.functions[k], id, inventory.consumer) { return None; }
      functions := functions + [FunctionOutcome(inventory.consumer, id, inventory.evidence)];
    }
    return Some(Outcome(id, impact.operation, Applied, actual, functions));
  }

  method ConsumerIsOwned(registry: seq<Instance>, id: string, consumer: string) returns (matched: bool)
    ensures matched <==> exists k :: 0 <= k < |registry| && OwnsConsumer(registry[k], id, consumer)
  {
    matched := false;
    for k := 0 to |registry|
      invariant matched <==> exists j :: 0 <= j < k && OwnsConsumer(registry[j], id, consumer)
    {
      if OwnsConsumer(registry[k], id, consumer) { matched := true; }
    }
  }

  function PendingUpdate(target: string, impact: Impact, e: Evidence): Option<Outcome>
  {
    var id := impact.instanceId;
    if impact.operation != "update" || impact.after.None? || id !in e.before || id !in e.after
       || !e.before[id].measured || !IsRunning(target, e.after[id]) then None
    else match Authoritative(e.registry, target, id, e.after[id])
      case None => None
      case Some(observed) => Some(Outcome(id, impact.operation, Pending, Some(observed), []))
  }

  /** What one impact earns; the first way that attests it decides, and retirement has no second. */
  function OutcomeOf(target: string, impact: Impact, e: Evidence): Option<Outcome>
  {
    if Retirement(impact) then RetirementOutcome(target, impact, e)
    else if RealizationOutcome(target, impact, e).Some? then RealizationOutcome(target, impact, e)
    else if SqlOutcome(target, impact, e).Some? then SqlOutcome(target, impact, e)
    else PendingUpdate(target, impact, e)
  }

  // ---------- what is attested, in terms of the measurements ----------

  predicate HasContainers(target: string, facts: Facts, id: string)
  {
    id in facts && facts[id].target == target && facts[id].measured == true
    && match facts[id].containers case Some(n) => n > 0 case None => false
  }

  predicate HasNone(target: string, facts: Facts, id: string)
  {
    id in facts && facts[id].target == target && facts[id].measured == true && facts[id].containers == Some(0)
  }

  predicate Runs(target: string, facts: Facts, id: string)
  {
    HasContainers(target, facts, id) && facts[id].state == Running
  }

  ghost predicate InRegistry(registry: seq<Instance>, id: string)
  {
    exists k :: 0 <= k < |registry| && registry[k].id == id && registry[k].ownership == BaseHarbor
  }

  predicate NothingElse(impact: Impact)
  {
    impact.materials == 0 && impact.effects == 0 && |impact.functions| == 0 && impact.continuations == 0
  }

  predicate PureRetirement(impact: Impact)
  {
    (impact.operation == "destroy" || impact.operation == "remove-runtime" || impact.operation == "retire")
    && impact.after == None && NothingElse(impact)
  }

  lemma MeasurementsExactly(target: string, facts: Facts, id: string)
    ensures Present(target, At(facts, id)) <==> HasContainers(target, facts, id)
    ensures Absent(target, At(facts, id)) <==> HasNone(target, facts, id)
    ensures IsRunning(target, At(facts, id)) <==> Runs(target, facts, id)
    ensures IsStopped(target, At(facts, id)) <==> HasNone(target, facts, id) && facts[id].state == StoppedOwned
  {
  }

  lemma EntryExactly(registry: seq<Instance>, id: string)
    ensures OwnedEntry(registry, id).Some? <==> InRegistry(registry, id)
  {
    if OwnedEntry(registry, id).Some? {
      var k :| 0 <= k < |registry| && registry[k] == OwnedEntry(registry, id).value;
    }
  }

  /** A pure retirement is claimed exactly if containers were measured before and none after; it has no
      other way to be reported. */
  lemma RetirementExactly(target: string, impact: Impact, e: Evidence)
    ensures Retirement(impact) <==> PureRetirement(impact)
    ensures PureRetirement(impact) ==>
      OutcomeOf(target, impact, e) ==
        if HasContainers(target, e.before, impact.instanceId) && HasNone(target, e.after, impact.instanceId)
        then Some(Outcome(impact.instanceId, impact.operation, Applied, None, [])) else None
  {
    MeasurementsExactly(target, e.before, impact.instanceId);
    MeasurementsExactly(target, e.after, impact.instanceId);
  }

  /** What a start, a stop or a replacement needs to be claimed. */
  ghost predicate Transition(target: string, impact: Impact, e: Evidence)
  {
    && impact.after.Some? && impact.after.value.target == target && !impact.after.value.access
    && impact.after.value.locations == 0 && NothingElse(impact)
    && var id := impact.after.value.instanceId;
       && id in e.before && id in e.after && e.before[id].measured && InRegistry(e.registry, id)
       && match impact.operation
          case "stop" =>
            Runs(target, e.before, id) && HasNone(target, e.after, id) && e.after[id].state == StoppedOwned
          case "replace" =>
            && !Runs(target, e.before, id) && Runs(target, e.after, id)
            && HasContainers(target, e.before, impact.instanceId) && HasNone(target, e.after, impact.instanceId)
          case operation =>
            && (operation == "add" || operation == "resume" || operation == "start")
            && !Runs(target, e.before, id) && Runs(target, e.after, id)
  }

  lemma TransitionExactly(target: string, impact: Impact, e: Evidence)
    ensures RealizationOutcome(target, impact, e).Some? <==> Transition(target, impact, e)
  {
    if impact.after.Some? {
      var id := impact.after.value.instanceId;
      MeasurementsExactly(target, e.before, id);
      MeasurementsExactly(target, e.after, id);
      EntryExactly(e.registry, id);
    }
    MeasurementsExactly(target, e.before, impact.instanceId);
    MeasurementsExactly(target, e.after, impact.instanceId);
  }

  /** What a new database needs to be claimed: besides the transition, an inventory that is empty and complete,
      a registry entry of the very consumer that was asked, and only needs that this query answers. */
  ghost predicate NewDatabase(target: string, impact: Impact, e: Evidence)
  {
    && (impact.operation == "add" || impact.operation == "resume")
    && impact.after.Some? && impact.after.value.kind == PostgreSQL && impact.after.value.scope == ApplicationScope
    && !impact.after.value.access && impact.after.value.locations == 0
    && impact.materials == 0 && impact.effects == 0 && impact.continuations == 0 && |impact.functions| > 0
    && var id := impact.instanceId;
       && HasNone(target, e.before, id) && Runs(target, e.after, id) && id in e.sql
       && e.sql[id].empty == true && e.sql[id].consumer != "" && e.sql[id].instance != "" && e.sql[id].evidence != ""
       && ConsumerRegistered(e.registry, id, e.sql[id].consumer)
       && OwnerAccepted(target, OwnedEntry(e.registry, id), e.after[id])
       && forall n :: n in impact.functions ==>
            n.consumer == e.sql[id].consumer && n.function_ == "database.sql" && n.via == [id]
            && n.validUntil == "" && n.behavior == "" && !n.transition
  }

  ghost predicate ConsumerRegistered(registry: seq<Instance>, id: string, consumer: string)
  {
    exists k :: 0 <= k < |registry|
      && registry[k].id == id && registry[k].scope == ApplicationScope && registry[k].ownership == BaseHarbor
      && registry[k].ownerApplication != ""
      && consumer == "application/" + registry[k].ownerApplication + "/" + registry[k].ownerEnvironment
  }

  /** The owner that the claim would name is the Target, or an application-scoped entry's. */
  predicate OwnerAccepted(target: string, entry: Option<Instance>, fact: Fact)
  {
    && entry.Some?
    && var application := entry.value.scope == ApplicationScope;
       var owner := if fact.ancillary then fact.ownerReference
                    else if application then entry.value.ownerApplication else "target/" + target;
       owner != "" && (application || owner == "target/" + target)
  }

  lemma NewDatabaseExactly(target: string, impact: Impact, e: Evidence)
    ensures SqlOutcome(target, impact, e).Some? <==> NewDatabase(target, impact, e)
  {
    var id := impact.instanceId;
    MeasurementsExactly(target, e.before, id);
    MeasurementsExactly(target, e.after, id);
    if id in e.sql { ConsumerExactly(e.registry, id, e.sql[id].consumer); }
    if id in e.sql && forall n :: n in impact.functions ==> PlainQuery(n, id, e.sql[id].consumer) {
      assert forall k :: 0 <= k < |impact.functions| ==> impact.functions[k] in impact.functions;
    }
  }

  lemma ConsumerExactly(registry: seq<Instance>, id: string, consumer: string)
    ensures ConsumerRegistered(registry, id, consumer) <==>
      exists k :: 0 <= k < |registry| && OwnsConsumer(registry[k], id, consumer)
  {
    if ConsumerRegistered(registry, id, consumer) {
      var k :| 0 <= k < |registry|
        && registry[k].id == id && registry[k].scope == ApplicationScope && registry[k].ownership == BaseHarbor
        && registry[k].ownerApplication != ""
        && consumer == "application/" + registry[k].ownerApplication + "/" + registry[k].ownerEnvironment;
      assert OwnsConsumer(registry[k], id, consumer);
    }
    if k :| 0 <= k < |registry| && OwnsConsumer(registry[k], id, consumer) { assert registry[k].id == id; }
  }

  /** What an update needs to be reported as pending. */
  ghost predicate RunningUpdate(target: string, impact: Impact, e: Evidence)
  {
    && impact.operation == "update" && impact.after.Some? && impact.instanceId in e.before
    && e.before[impact.instanceId].measured && Runs(target, e.after, impact.instanceId)
    && InRegistry(e.registry, impact.instanceId)
  }

  lemma RunningUpdateExactly(target: string, impact: Impact, e: Evidence)
    ensures PendingUpdate(target, impact, e).Some? <==> RunningUpdate(target, impact, e)
  {
    MeasurementsExactly(target, e.after, impact.instanceId);
    EntryExactly(e.registry, impact.instanceId);
  }

  /** An impact is reported exactly if the measurements attest it in one of these ways: as applied for a
      retirement, a transition or a new database, as pending for an update of a running instance. */
  lemma ReportedExactly(target: string, impact: Impact, e: Evidence)
    ensures (OutcomeOf(target, impact, e).Some? && OutcomeOf(target, impact, e).value.status == Applied) <==>
      if PureRetirement(impact)
      then HasContainers(target, e.before, impact.instanceId) && HasNone(target, e.after, impact.instanceId)
      else Transition(target, impact, e) || NewDatabase(target, impact, e)
    ensures (OutcomeOf(target, impact, e).Some? && OutcomeOf(target, impact, e).value.status == Pending) <==>
      !PureRetirement(impact) && RunningUpdate(target, impact, e)
  {
    RetirementExactly(target, impact, e);
    TransitionExactly(target, impact, e);
    NewDatabaseExactly(target, impact, e);
    RunningUpdateExactly(target, impact, e);
  }

  // ---------- the report ----------

  /** `at` names, for every outcome, the impact it reports: in plan order, none twice, none left out. */
  predicate Reports(target: string, impacts: seq<Impact>, e: Evidence, outcomes: seq<Outcome>, at: seq<nat>)
  {
    && |at| == |outcomes|
    && (forall j :: 0 <= j < |at| ==> at[j] < |impacts| && OutcomeOf(target, impacts[at[j]], e) == Some(outcomes[j]))
    && (forall i, j :: 0 <= i < j < |at| ==> at[i] < at[j])
    && (forall k: nat :: k < |impacts| && OutcomeOf(target, impacts[k], e).Some? ==> k in at)
  }

  method ObservedOutcomes(target: string, impacts: seq<Impact>, before: Option<Facts>, after: Option<Facts>,
                          registry: seq<Instance>, sql: map<string, Inventory>)
    returns (outcomes: seq<Outcome>, ghost at: seq<nat>)
    ensures before.None? || after.None? ==> outcomes == []
    ensures before.Some? && after.Some? ==>
      Reports(target, impacts, Evidence(before.value, after.value, registry, sql), outcomes, at)
    ensures before.Some? && after.Some? ==>
      Truthful(target, Evidence(before.value, after.value, registry, sql), outcomes)
  {
    outcomes, at := [], [];
    if before.None? || after.None? { return; }
    var e := Evidence(before.value, after.value, registry, sql);
    for k := 0 to |impacts|
      invariant forall j :: 0 <= j < |at| ==> at[j] < k
      invariant Reports(target, impacts[..k], e, outcomes, at)
    {
      var outcome := Observe(target, impacts[k], e);
      ghost var earlier, was := at, outcomes;
      if outcome.Some? {
        outcomes := outcomes + [outcome.value];
        at := at + [k];
      }
      ReportExtends(target, impacts, e, was, earlier, k);
    }
    assert impacts[..|impacts|] == impacts;
    ReportsAreTruthful(target, impacts, e, outcomes, at);
  }

  method Observe(target: string, impact: Impact, e: Evidence) returns (r: Option<Outcome>)
    ensures r == OutcomeOf(target, impact, e)
  {
    if Retirement(impact) { return RetirementOutcome(target, impact, e); }
    r := RealizationOutcome(target, impact, e);
    if r.Some? { return; }
    r := SqlNewConsumer(target, impact, e);
    if r.Some? { return; }
    r := PendingUpdate(target, impact, e);
  }

  lemma ReportExtends(target: string, impacts: seq<Impact>, e: Evidence, outcomes: seq<Outcome>, at: seq<nat>, k: nat)
    requires k < |impacts| && Reports(target, impacts[..k], e, outcomes, at)
    ensures match OutcomeOf(target, impacts[k], e)
            case None => Reports(target, impacts[..k + 1], e, outcomes, at)
            case Some(o) => Reports(target, impacts[..k + 1], e, outcomes + [o], at + [k])
  {
    var longer := impacts[..k + 1];
    assert forall i :: 0 <= i < k ==> longer[i] == impacts[..k][i];
    match OutcomeOf(target, impacts[k], e)
    case None =>
    case Some(o) =>
      var now := at + [k];
      forall m: nat | m < |longer| && OutcomeOf(target, longer[m], e).Some? ensures m in now {
        if m < k { assert m in at; } else { assert now[|at|] == k; }
      }
  }

  // ---------- what a claim of success means ----------

  predicate Claimed(target: string, impact: Impact, e: Evidence, o: Outcome)
  {
    OutcomeOf(target, impact, e) == Some(o) && o.status == Applied
  }

  /** The instance that a claim says was brought up, and the one it says was taken down. */
  function BroughtUp(o: Outcome): Option<string>
  {
    if o.after.Some? && o.operation != "stop" then Some(o.after.value.instanceId) else None
  }

  function TakenDown(o: Outcome): Option<string>
  {
    if o.after.None? || o.operation == "replace" then Some(o.instanceId)
    else if o.operation == "stop" then Some(o.after.value.instanceId)
    else None
  }

  /** Every claim rests on measurements: what came up was measured, not running, and now runs; what
      went down had containers and has none. Every claim names at least one of the two. */
  lemma ClaimsRestOnMeasuredTransitions(target: string, impact: Impact, e: Evidence, o: Outcome)
    requires Claimed(target, impact, e, o)
    ensures BroughtUp(o).Some? || TakenDown(o).Some?
    ensures BroughtUp(o).Some? ==>
      var id := BroughtUp(o).value;
      id in e.before && id in e.after && e.before[id].measured
      && !IsRunning(target, e.before[id]) && IsRunning(target, e.after[id])
    ensures TakenDown(o).Some? ==>
      var id := TakenDown(o).value;
      id in e.before && id in e.after && Present(target, e.before[id]) && Absent(target, e.after[id])
  {
  }

  /** Except for a pure retirement, identity, kind, scope and ownership of a claim are those of the first
      registry entry of its instance that BaseHarbor owns. Its owner is that entry's exactly if the
      fact is not ancillary, or names the same owner. */
  lemma ClaimsAreRegistered(target: string, impact: Impact, e: Evidence, o: Outcome)
    requires Claimed(target, impact, e, o)
    ensures o.after.None? <==> Retirement(impact)
    ensures o.after.Some? ==>
      var r := o.after.value; var entry := OwnedEntry(e.registry, r.instanceId);
      && entry.Some? && r.instanceId in e.after
      && r.kind == entry.value.kind && r.scope == entry.value.scope && r.ownership == BaseHarbor
      && (r.owner == RegistryOwner(entry.value, target) <==>
            !e.after[r.instanceId].ancillary
              || e.after[r.instanceId].ownerReference == RegistryOwner(entry.value, target))
  {
  }

  /** The owner of an ancillary claim is whatever its fact refers to, not the registry's. */
  lemma AncillaryOwnerIsNotTheEntrys(target: string, id: string, reference: string, stopped: Fact, running: Fact)
    requires Absent(target, stopped) && IsRunning(target, running) && running.ancillary
             && running.ownerReference == reference
    requires reference != "target/" + target
    ensures var entry := Instance(id, OtherKind, OtherScope, BaseHarbor, "", "");
            var impact := Impact(id, "start", Some(Proposal(id, target, OtherKind, OtherScope, false, 0)), 0, 0, [], 0);
            var e := Evidence(map[id := stopped], map[id := running], [entry], map[]);
            && OutcomeOf(target, impact, e).Some?
            && Claimed(target, impact, e, OutcomeOf(target, impact, e).value)
            && OutcomeOf(target, impact, e).value.after.Some?
            && OutcomeOf(target, impact, e).value.after.value.owner == reference != RegistryOwner(entry, target)
  {
  }

  /** No run claims of one instance both that it came up and that it went down. */
  lemma ClaimsNeverContradict(target: string, a: Impact, b: Impact, e: Evidence, up: Outcome, down: Outcome)
    requires Claimed(target, a, e, up) && Claimed(target, b, e, down)
    ensures BroughtUp(up).None? || TakenDown(down).None? || BroughtUp(up).value != TakenDown(down).value
  {
    ClaimsRestOnMeasuredTransitions(target, a, e, up);
    ClaimsRestOnMeasuredTransitions(target, b, e, down);
  }

  /** What a report may say at all: every claim rests on a registered, measured transition of the
      instances it names, every other outcome is a pending update of a running instance, a claimed
      replacement names two instances, and no two claims contradict each other. */
  ghost predicate Truthful(target: string, e: Evidence, outcomes: seq<Outcome>)
  {
    && (forall j :: 0 <= j < |outcomes| ==> OutcomeHolds(target, e, outcomes[j]))
    && (forall i, j :: 0 <= i < |outcomes| && 0 <= j < |outcomes| ==> Compatible(outcomes[i], outcomes[j]))
  }

  predicate CameUp(target: string, e: Evidence, id: string)
  {
    && id in e.before && id in e.after && e.before[id].measured
    && !IsRunning(target, e.before[id]) && IsRunning(target, e.after[id])
  }

  predicate WentDown(target: string, e: Evidence, id: string)
  {
    id in e.before && id in e.after && Present(target, e.before[id]) && Absent(target, e.after[id])
  }

  predicate Registered(target: string, e: Evidence, r: Realization)
  {
    r.instanceId in e.after
    && exists i :: i in e.registry && i.ownership == BaseHarbor && r == Realized(i, target, e.after[r.instanceId])
  }

  predicate OutcomeHolds(target: string, e: Evidence, o: Outcome)
  {
    && (o.after.Some? ==> Registered(target, e, o.after.value))
    && match o.status
       case Applied =>
         && (BroughtUp(o).Some? || TakenDown(o).Some?)
         && (BroughtUp(o).Some? ==> CameUp(target, e, BroughtUp(o).value))
         && (TakenDown(o).Some? ==> WentDown(target, e, TakenDown(o).value))
         && (o.operation == "replace" ==> o.after.Some? && o.after.value.instanceId != o.instanceId)
       case Pending =>
         && o.operation == "update" && o.after.Some? && o.instanceId in e.after
         && IsRunning(target, e.after[o.instanceId])
  }

  predicate Compatible(a: Outcome, b: Outcome)
  {
    a.status == Applied && b.status == Applied && BroughtUp(a).Some? && TakenDown(b).Some? ==>
      BroughtUp(a).value != TakenDown(b).value
  }

  lemma EarnedOutcomeHolds(target: string, impact: Impact, e: Evidence, o: Outcome)
    requires OutcomeOf(target, impact, e) == Some(o)
    ensures OutcomeHolds(target, e, o)
  {
    if o.after.Some? {
      var i := OwnedEntry(e.registry, o.after.value.instanceId).value;
      assert o.after.value == Realized(i, target, e.after[i.id]);
    }
    if o.status == Applied { ClaimsRestOnMeasuredTransitions(target, impact, e, o); }
  }

  /** Every report is truthful, for all plans, observations and registries. */
  lemma ReportsAreTruthful(target: string, impacts: seq<Impact>, e: Evidence, outcomes: seq<Outcome>, at: seq<nat>)
    requires Reports(target, impacts, e, outcomes, at)
    ensures Truthful(target, e, outcomes)
  {
    forall j | 0 <= j < |outcomes| ensures OutcomeHolds(target, e, outcomes[j]) {
      EarnedOutcomeHolds(target, impacts[at[j]], e, outcomes[j]);
    }
    forall i, j | 0 <= i < |outcomes| && 0 <= j < |outcomes| ensures Compatible(outcomes[i], outcomes[j]) {
      assert OutcomeHolds(target, e, outcomes[i]) && OutcomeHolds(target, e, outcomes[j]);
    }
  }

  /** If nothing changed between the two observations, nothing is claimed, whatever was planned. */
  lemma NothingChangedNothingClaimed(target: string, impacts: seq<Impact>, e: Evidence, outcomes: seq<Outcome>,
                                     at: seq<nat>)
    requires Reports(target, impacts, e, outcomes, at) && e.before == e.after
    ensures forall j :: 0 <= j < |outcomes| ==> outcomes[j].status == Pending
    ensures forall k :: 0 <= k < |impacts| && OutcomeOf(target, impacts[k], e).Some? ==>
      impacts[k].operation == "update"
  {
    ReportsAreTruthful(target, impacts, e, outcomes, at);
    forall j | 0 <= j < |outcomes| ensures outcomes[j].status == Pending {
      assert OutcomeHolds(target, e, outcomes[j]);
    }
    forall k: nat | k < |impacts| && OutcomeOf(target, impacts[k], e).Some? ensures impacts[k].operation == "update" {
      assert k in at;
      var j :| 0 <= j < |at| && at[j] == k;
      assert OutcomeHolds(target, e, outcomes[j]);
    }
  }

  function Reversed(e: Evidence): Evidence { e.(before := e.after, after := e.before) }

  /** A stop is claimed exactly when the same observations, read backwards, claim the start of an
      instance that was measured stopped. */
  lemma StopIsStartReversed(target: string, impact: Impact, e: Evidence)
    requires impact.operation == "stop" && impact.after.Some?
    ensures RealizationOutcome(target, impact, e).Some? <==>
      && RealizationOutcome(target, impact.(operation := "start"), Reversed(e)).Some?
      && IsStopped(target, At(e.after, impact.after.value.instanceId))
  {
  }

  predicate SameAt(e: Evidence, f: Evidence, id: string)
  {
    && (id in e.before <==> id in f.before) && At(e.before, id) == At(f.before, id)
    && (id in e.after <==> id in f.after) && At(e.after, id) == At(f.after, id)
    && (id in e.sql <==> id in f.sql) && (id in e.sql ==> e.sql[id] == f.sql[id])
  }

  lemma OutcomesAreLocal(target: string, impact: Impact, e: Evidence, f: Evidence)
    requires e.registry == f.registry && SameForImpact(e, f, impact)
    ensures OutcomeOf(target, impact, e) == OutcomeOf(target, impact, f)
  {
  }

  predicate SameForImpact(e: Evidence, f: Evidence, impact: Impact)
  {
    SameAt(e, f, impact.instanceId) && (impact.after.Some? ==> SameAt(e, f, impact.after.value.instanceId))
  }

  /** Facts of instances that a plan does not name never matter for its report. */
  lemma ReportsAreLocal(target: string, impacts: seq<Impact>, e: Evidence, f: Evidence, outcomes: seq<Outcome>,
                        at: seq<nat>)
    requires e.registry == f.registry && forall k :: 0 <= k < |impacts| ==> SameForImpact(e, f, impacts[k])
    ensures Reports(target, impacts, e, outcomes, at) <==> Reports(target, impacts, f, outcomes, at)
  {
    forall k: nat | k < |impacts| ensures OutcomeOf(target, impacts[k], e) == OutcomeOf(target, impacts[k], f) {
      OutcomesAreLocal(target, impacts[k], e, f);
    }
  }

  /** Nothing but the operation, the instances and the number of needs is taken from the impact: two
      claimed impacts that agree on these are reported alike, whatever else they proposed. */
  lemma NothingIsCopiedFromTheProposal(target: string, a: Impact, b: Impact, e: Evidence, p: Outcome, q: Outcome)
    requires Claimed(target, a, e, p) && Claimed(target, b, e, q)
    requires a.instanceId == b.instanceId && a.operation == b.operation && |a.functions| == |b.functions|
    requires a.after.Some? && b.after.Some? && a.after.value.instanceId == b.after.value.instanceId
    ensures p == q
  {
  }

  predicate DistinctIds(registry: seq<Instance>)
  {
    forall i, j :: 0 <= i < |registry| && 0 <= j < |registry| && registry[i].id == registry[j].id ==> i == j
  }

  /** Both entries are of one application. */
  predicate SameApplication(a: Instance, b: Instance)
  {
    a.scope == ApplicationScope && b.scope == ApplicationScope && a.ownerApplication == b.ownerApplication
  }

  /** The claim names this entry's application as the owner. */
  predicate NamesOwnerOf(r: Realization, i: Instance) { r.scope == i.scope && r.owner == i.ownerApplication }

  /** Some entry matched the consumer whose query was measured. The claim names its application exactly
      if the first entry that BaseHarbor owns is of the same application; with an ancillary fact,
      exactly if that first entry is application-scoped and the fact refers to this application. */
  lemma SqlClaimNamesItsConsumerExactly(target: string, impact: Impact, e: Evidence, o: Outcome, matched: Instance)
    requires SqlOutcome(target, impact, e) == Some(o)
    requires matched in e.registry && OwnsConsumer(matched, impact.instanceId, e.sql[impact.instanceId].consumer)
    ensures o.after.Some? && OwnedEntry(e.registry, impact.instanceId).Some?
    ensures !e.after[impact.instanceId].ancillary ==>
      (NamesOwnerOf(o.after.value, matched) <==>
         SameApplication(OwnedEntry(e.registry, impact.instanceId).value, matched))
    ensures e.after[impact.instanceId].ancillary ==>
      (NamesOwnerOf(o.after.value, matched) <==>
         && OwnedEntry(e.registry, impact.instanceId).value.scope == ApplicationScope
         && e.after[impact.instanceId].ownerReference == matched.ownerApplication)
  {
  }

  /** An attested database always has such an entry. */
  lemma SqlClaimHasAMatch(target: string, impact: Impact, e: Evidence, o: Outcome) returns (matched: Instance)
    requires SqlOutcome(target, impact, e) == Some(o)
    ensures matched in e.registry && OwnsConsumer(matched, impact.instanceId, e.sql[impact.instanceId].consumer)
  {
    var k :| 0 <= k < |e.registry| && OwnsConsumer(e.registry[k], impact.instanceId, e.sql[impact.instanceId].consumer);
    matched := e.registry[k];
  }

  /** A loaded registry has distinct ids (it is refused otherwise). Then the first entry is the one that
      matches the consumer, and every planned need is answered by that consumer's query. */
  lemma SqlClaimNamesItsConsumer(target: string, impact: Impact, e: Evidence, o: Outcome)
    requires DistinctIds(e.registry) && SqlOutcome(target, impact, e) == Some(o)
    ensures OwnedEntry(e.registry, impact.instanceId).Some?
    ensures OwnsConsumer(OwnedEntry(e.registry, impact.instanceId).value, impact.instanceId,
                         e.sql[impact.instanceId].consumer)
    ensures o.after.Some? && o.after.value.scope == ApplicationScope
    ensures !e.after[impact.instanceId].ancillary ==>
      NamesOwnerOf(o.after.value, OwnedEntry(e.registry, impact.instanceId).value)
    ensures |o.functions| == |impact.functions|
    ensures forall k :: 0 <= k < |o.functions| ==>
      o.functions[k].consumer == impact.functions[k].consumer && impact.functions[k].via == [o.functions[k].instanceId]
  {
    var id := impact.instanceId;
    var consumer := e.sql[id].consumer;
    var k :| 0 <= k < |e.registry| && OwnsConsumer(e.registry[k], id, consumer);
    var first := OwnedEntry(e.registry, id).value;
    var m :| 0 <= m < |e.registry| && e.registry[m] == first;
    assert m == k;
    assert forall j :: 0 <= j < |impact.functions| ==> PlainQuery(impact.functions[j], id, consumer);
  }

  /** Without distinct ids it may name the Target instead: the entry that supplies the owner need not be
      the one that matches the consumer. No loaded registry is of this kind. */
  lemma RepeatedIdMayNameAnotherOwner(id: string, target: string, running: Fact, absent: Fact, consumer: string)
    requires IsRunning(target, running) && Absent(target, absent) && !running.ancillary
    requires consumer == "application/" + "a" + "/" + "e"
    ensures exists impact, e, o ::
            (SqlOutcome(target, impact, e) == Some(o) && o.after.Some? && !DistinctIds(e.registry)
                                    && o.after.value.scope == OtherScope && o.after.value.owner == "target/" + target)
  {
    var shared := Instance(id, PostgreSQL, OtherScope, BaseHarbor, "", "");
    var own := Instance(id, PostgreSQL, ApplicationScope, BaseHarbor, "a", "e");
    var need := Need(consumer, "database.sql", [id], "", "", false);
    var impact := Impact(id, "add", Some(Proposal(id, target, PostgreSQL, ApplicationScope, false, 0)),
                         0, 0, [need], 0);
    var e := Evidence(map[id := absent], map[id := running], [shared, own],
                      map[id := Inventory(true, consumer, "i", "q")]);
    assert OwnedEntry(e.registry, id) == Some(shared);
    assert OwnsConsumer(e.registry[1], id, consumer);
    assert PlainQuery(impact.functions[0], id, consumer);
    assert !DistinctIds(e.registry) by { assert e.registry[0].id == e.registry[1].id; }
    assert SqlOutcome(target, impact, e).Some?;
  }
}
