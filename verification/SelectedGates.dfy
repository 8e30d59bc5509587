/** Three readers of one gate plan: the runtime matrix, the runtime requests and the final
    verifier. They must agree on which selected gates have an executor. */
module SelectedGates {
  import opened Wrappers
  import opened Sorting
  import T = Text

  type Gate = string
  type Job = string

  const CONTRACTS: Gate := "integration/static/public-contracts"
  const PLAN_SCHEMA := "baseharbor.pr-gate-plan/v1"
  const BASE_JOBS: set<Job> := {"workflow_policy", "pr_plan", "pr_focused", "pr_validations"}
  const RUNTIME_JOBS: set<Job> := {"pr_candidate", "pr_runner_interface", "pr_runtime_selected"}
  const CONSUMERS := {"core", "demo", "console", "connector"}

  /** `atomic/docker/x` or `atomic/podman/x`: the gates a native runtime lane executes. */
  predicate RuntimeGate(gate: Gate)
  {
    var parts := T.Split(gate, '/');
    |parts| == 3 && parts[0] == "atomic" && (parts[1] == "docker" || parts[1] == "podman")
  }

  /** A plan as decoded: a field that is absent or has the wrong type is None. */
  datatype Plan = Plan(
    schema: Option<string>,
    coverage: Option<string>,
    nothingUnresolved: bool,
    targetBase: Option<string>,
    head: Option<string>,
    mergeBase: Option<string>,
    integration: Option<string>,
    gates: Option<seq<Gate>>,
    checks: Option<seq<string>>,
    dependencies: Option<seq<string>>)

  // ---------- the runtime matrix ----------

  /** In order, none twice. */
  predicate Ascending(s: seq<Gate>) { Sorted(LexLe, s) && Distinct(s) }

  predicate Unsupported(gate: Gate) { !RuntimeGate(gate) && gate != CONTRACTS }

  /** Those of the first `k` gates that are kept, in order. */
  function Kept(keep: Gate -> bool, gates: seq<Gate>, k: nat): seq<Gate>
    requires k <= |gates|
  {
    if k == 0 then [] else Kept(keep, gates, k - 1) + if keep(gates[k - 1]) then [gates[k - 1]] else []
  }

  lemma {:induction false} KeptMembers(keep: Gate -> bool, gates: seq<Gate>, k: nat)
    requires k <= |gates|
    ensures forall g :: g in Kept(keep, gates, k) <==> keep(g) && exists i :: 0 <= i < k && gates[i] == g
  {
    if k > 0 {
      KeptMembers(keep, gates, k - 1);
      assert forall g :: g in Kept(keep, gates, k) <==>
        g in Kept(keep, gates, k - 1) || (keep(gates[k - 1]) && g == gates[k - 1]);
    }
  }

  lemma {:induction false} KeptIsDistinct(keep: Gate -> bool, gates: seq<Gate>, k: nat)
    requires k <= |gates| && Distinct(gates)
    ensures Distinct(Kept(keep, gates, k))
  {
    if k > 0 {
      KeptIsDistinct(keep, gates, k - 1);
      KeptMembers(keep, gates, k - 1);
    }
  }

  lemma {:induction false} KeptAscends(keep: Gate -> bool, gates: seq<Gate>, k: nat)
    requires k <= |gates| && Ascending(gates)
    ensures Ascending(Kept(keep, gates, k))
  {
    KeptIsDistinct(keep, gates, k);
    if k > 0 {
      KeptAscends(keep, gates, k - 1);
      KeptMembers(keep, gates, k - 1);
      var before := Kept(keep, gates, k - 1);
      forall i | 0 <= i < |before| ensures LexLe(before[i], gates[k - 1]) { assert before[i] in before; }
    }
  }

  datatype Matrix = Matrix(included: seq<Gate>, required: bool, unsupported: seq<Gate>)

  datatype SelectError = InvalidSelection | UnknownGate

  predicate Within(gates: seq<Gate>, catalog: set<Gate>) { forall g :: g in gates ==> g in catalog }

  /** The kept gates of a selection, in order. */
  function KeptInOrder(keep: Gate -> bool, gates: seq<Gate>): seq<Gate> { Sort(LexLe, Kept(keep, gates, |gates|)) }

  lemma KeptInOrderIsRight(keep: Gate -> bool, gates: seq<Gate>)
    requires Distinct(gates)
    ensures Ascending(KeptInOrder(keep, gates))
    ensures forall g :: g in KeptInOrder(keep, gates) <==> g in gates && keep(g)
    ensures |KeptInOrder(keep, gates)| == |Kept(keep, gates, |gates|)|
  {
    var kept := Kept(keep, gates, |gates|);
    KeptIsDistinct(keep, gates, |gates|);
    KeptMembers(keep, gates, |gates|);
    SortKeepsAll(kept);
    PermutationKeepsDistinct(kept, Sort(LexLe, kept));
  }

  lemma SortKeepsAll(s: seq<Gate>)
    ensures Sorted(LexLe, Sort(LexLe, s)) && multiset(Sort(LexLe, s)) == multiset(s)
    ensures |Sort(LexLe, s)| == |s| && forall g :: g in Sort(LexLe, s) <==> g in s
  {
    LexIsTotalOrder();
    SortSorts(LexLe, s);
    PermutationKeepsMembers(s, Sort(LexLe, s));
  }

  /** The selection is a list of distinct gates of the catalog. */
  predicate Selectable(plan: Plan, catalog: set<Gate>)
  {
    plan.gates.Some? && Distinct(plan.gates.value) && Within(plan.gates.value, catalog)
  }

  /** `select`: the runtime gates and the unsupported ones, each list in order and without repeats. The
      placeholder entry for an empty matrix is left to the workflow. */
  method Select(plan: Plan, catalog: set<Gate>) returns (r: Result<Matrix, SelectError>)
    ensures r.Ok? <==> Selectable(plan, catalog)
    ensures r.Err? ==>
      r.error == if plan.gates.None? || !Distinct(plan.gates.value) then InvalidSelection else UnknownGate
    ensures r.Ok? ==> Ascending(r.value.included) && Ascending(r.value.unsupported)
    ensures r.Ok? ==> forall g :: g in r.value.included <==> g in plan.gates.value && RuntimeGate(g)
    ensures r.Ok? ==> forall g :: g in r.value.unsupported <==> g in plan.gates.value && Unsupported(g)
    ensures r.Ok? ==> (r.value.required <==> r.value.included != [])
  {
    if plan.gates.None? || !Distinct(plan.gates.value) { return Err(InvalidSelection); }
    var selected := plan.gates.value;
    if !Within(selected, catalog) { return Err(UnknownGate); }
    var supported := Filter(RuntimeGate, selected);
    var unsupported := Filter(Unsupported, selected);
    KeptInOrderIsRight(RuntimeGate, selected);
    KeptInOrderIsRight(Unsupported, selected);
    return Ok(Matrix(Sort(LexLe, supported), supported != [], Sort(LexLe, unsupported)));
  }

  method Filter(keep: Gate -> bool, gates: seq<Gate>) returns (kept: seq<Gate>)
    ensures kept == Kept(keep, gates, |gates|)
  {
    kept := [];
    for i := 0 to |gates|
      invariant kept == Kept(keep, gates, i)
    {
      if keep(gates[i]) { kept := kept + [gates[i]]; }
    }
  }

  // ---------- the runtime requests ----------

  datatype Request = Request(gate: Gate, targetBase: string, head: string, mergeBase: string, integration: string,
                             pins: map<string, string>)

  datatype RequestError =
    | InvalidPlan | MissingSha | MissingIntegration | UnknownPins | BadSelection | BadDependencies | MissingPin

  const PIN_NAMES := {"demo", "console", "connector"}

  predicate DependenciesOk(d: Option<set<string>>) { d.Some? && "core" in d.value && d.value <= CONSUMERS }

  /** The pins a gate with these dependencies needs. */
  function RequiredPins(d: set<string>): set<string> { set n | n in PIN_NAMES && n in d :: n + "_sha" }

  predicate PinsOk(d: set<string>, pins: map<string, string>)
  {
    forall n :: n in RequiredPins(d) ==> n in pins && T.FullSha(pins[n])
  }

  predicate Requestable(plan: Plan, catalog: map<Gate, Option<set<string>>>, pins: map<string, string>)
  {
    && plan.schema == Some(PLAN_SCHEMA)
    && T.ShaField(plan.targetBase) && T.ShaField(plan.head) && T.ShaField(plan.mergeBase)
       && T.ShaField(plan.integration)
    && pins.Keys <= {"demo_sha", "console_sha", "connector_sha"}
    && plan.gates.Some? && plan.gates.value != [] && Distinct(plan.gates.value)
    && Within(plan.gates.value, catalog.Keys)
  }

  predicate GateRequestable(gate: Gate, catalog: map<Gate, Option<set<string>>>, pins: map<string, string>)
    requires gate in catalog
  {
    DependenciesOk(catalog[gate]) && PinsOk(catalog[gate].value, pins)
  }

  function GatesOf(requests: seq<Request>): (gates: seq<Gate>)
    ensures |gates| == |requests|
  {
    seq(|requests|, k requires 0 <= k < |requests| => requests[k].gate)
  }

  /** The selection as the loop goes through it. */
  function InOrder(plan: Plan): seq<Gate>
    requires plan.gates.Some?
  {
    Sort(LexLe, plan.gates.value)
  }

  /** The plan and each of its runtime gates can be requested. */
  predicate AllRequestable(plan: Plan, catalog: map<Gate, Option<set<string>>>, pins: map<string, string>)
  {
    && Requestable(plan, catalog, pins)
    && forall g :: g in plan.gates.value && RuntimeGate(g) ==> GateRequestable(g, catalog, pins)
  }

  /** `requests`: one request per runtime gate, in sorted order, naming the plan's own commits and
      exactly the given pins its gate depends on; any runtime gate without them refuses the whole plan. */
  method Requests(plan: Plan, catalog: map<Gate, Option<set<string>>>, pins: map<string, string>)
    returns (r: Result<seq<Request>, RequestError>)
    ensures r.Ok? <==> AllRequestable(plan, catalog, pins)
    ensures r.Ok? ==> Ascending(GatesOf(r.value))
    ensures r.Ok? ==> forall g :: g in GatesOf(r.value) <==> g in plan.gates.value && RuntimeGate(g)
    ensures r.Ok? ==> forall k :: 0 <= k < |r.value| ==> RequestMatches(r.value[k], plan, catalog, pins)
  {
    if plan.schema != Some(PLAN_SCHEMA) { return Err(InvalidPlan); }
    if !T.ShaField(plan.targetBase) || !T.ShaField(plan.head) || !T.ShaField(plan.mergeBase) { return Err(MissingSha); }
    if !T.ShaField(plan.integration) { return Err(MissingIntegration); }
    if !(pins.Keys <= {"demo_sha", "console_sha", "connector_sha"}) { return Err(UnknownPins); }
    if plan.gates.None? || plan.gates.value == [] || !Distinct(plan.gates.value) { return Err(BadSelection); }
    if !Within(plan.gates.value, catalog.Keys) { return Err(BadSelection); }
    var selected := InOrder(plan);
    SortKeepsAll(plan.gates.value);
    r := GateRequests(selected, plan, catalog, pins);
    if r.Ok? {
      PermutationKeepsDistinct(plan.gates.value, selected);
      KeptAscends(RuntimeGate, selected, |selected|);
      KeptMembers(RuntimeGate, selected, |selected|);
    }
  }

  /** The loop over the sorted gates. */
  method GateRequests(selected: seq<Gate>, plan: Plan, catalog: map<Gate, Option<set<string>>>,
                      pins: map<string, string>)
    returns (r: Result<seq<Request>, RequestError>)
    requires T.ShaField(plan.targetBase) && T.ShaField(plan.head) && T.ShaField(plan.mergeBase)
             && T.ShaField(plan.integration)
    requires Within(selected, catalog.Keys)
    ensures r.Ok? <==> forall g :: g in selected && RuntimeGate(g) ==> g in catalog && GateRequestable(g, catalog, pins)
    ensures r.Ok? ==> GatesOf(r.value) == Kept(RuntimeGate, selected, |selected|)
    ensures r.Ok? ==> forall k :: 0 <= k < |r.value| ==> RequestMatches(r.value[k], plan, catalog, pins)
  {
    var result: seq<Request> := [];
    for i := 0 to |selected|
      invariant forall k :: 0 <= k < i && RuntimeGate(selected[k]) ==> GateRequestable(selected[k], catalog, pins)
      invariant GatesOf(result) == Kept(RuntimeGate, selected, i)
      invariant forall k :: 0 <= k < |result| ==> RequestMatches(result[k], plan, catalog, pins)
    {
      var gate := selected[i];
      if !RuntimeGate(gate) { continue; }
      var request := RequestFor(gate, plan, catalog, pins);
      if request.Err? { return Err(request.error); }
      OneMoreRequest(result, request.value);
      result := result + [request.value];
    }
    return Ok(result);
  }

  /** The request of one runtime gate. */
  method RequestFor(gate: Gate, plan: Plan, catalog: map<Gate, Option<set<string>>>, pins: map<string, string>)
    returns (r: Result<Request, RequestError>)
    requires T.ShaField(plan.targetBase) && T.ShaField(plan.head) && T.ShaField(plan.mergeBase)
             && T.ShaField(plan.integration) && gate in catalog
    ensures r.Ok? <==> GateRequestable(gate, catalog, pins)
    ensures r.Ok? ==> r.value.gate == gate && RequestMatches(r.value, plan, catalog, pins)
  {
    if !DependenciesOk(catalog[gate]) { return Err(BadDependencies); }
    if !PinsOk(catalog[gate].value, pins) { return Err(MissingPin); }
    return Ok(Request(gate, plan.targetBase.value, plan.head.value, plan.mergeBase.value, plan.integration.value,
                      map n | n in RequiredPins(catalog[gate].value) :: pins[n]));
  }

  lemma OneMoreRequest(requests: seq<Request>, q: Request)
    ensures GatesOf(requests + [q]) == GatesOf(requests) + [q.gate]
  {
  }

  predicate RequestMatches(q: Request, plan: Plan, catalog: map<Gate, Option<set<string>>>, pins: map<string, string>)
    requires plan.targetBase.Some? && plan.head.Some? && plan.mergeBase.Some? && plan.integration.Some?
  {
    && q.gate in catalog && DependenciesOk(catalog[q.gate])
    && q.head == plan.head.value && q.integration == plan.integration.value
    && q.targetBase == plan.targetBase.value && q.mergeBase == plan.mergeBase.value
    && q.pins.Keys == RequiredPins(catalog[q.gate].value)
    && (forall n :: n in q.pins ==> n in pins && q.pins[n] == pins[n] && T.FullSha(q.pins[n]))
  }

  // ---------- the final verifier ----------

  datatype JobResult = Success | Skipped | Unsuccessful

  datatype Problem =
    | InvalidPlanObject | MissingNeeds | Unresolved | OtherHead | OtherIntegration | InvalidGates | InvalidChecks
    | NothingSelected | NoExecutor(gate: Gate) | InvalidDependencies | RequiredJobFailed(job: Job) | JobFailed(job: Job)

  /** The jobs that must have succeeded for these gates, pins aside. */
  function GateJobs(gates: seq<Gate>): set<Job>
  {
    BASE_JOBS
    + (if exists g :: g in gates && RuntimeGate(g) then RUNTIME_JOBS else {})
    + (if CONTRACTS in gates then {"pr_public_contracts"} else {})
  }

  predicate NeedsPins(gates: seq<Gate>) { (exists g :: g in gates && RuntimeGate(g)) || CONTRACTS in gates }

  predicate DependencyListOk(d: Option<seq<string>>) { d.Some? && forall x :: x in d.value ==> x in CONSUMERS }

  function PinJob(d: seq<string>): Job
  {
    if "console" in d || "connector" in d then "pr_consumer_pins" else "pr_demo_pin"
  }

  function RequiredJobs(plan: Plan): set<Job>
    requires plan.gates.Some?
  {
    GateJobs(plan.gates.value)
    + (if NeedsPins(plan.gates.value) && DependencyListOk(plan.dependencies) then {PinJob(plan.dependencies.value)}
       else {})
  }

  predicate Executable(gate: Gate) { RuntimeGate(gate) || gate == CONTRACTS }

  predicate JobSucceeded(needs: map<Job, JobResult>, job: Job) { job in needs && needs[job] == Success }

  // ---------- gates and jobs by name ----------

  /** A native gate of one of the two runtimes, by its full name. */
  ghost predicate NativeGate(gate: Gate)
  {
    exists name ::
      '/' !in name && (gate == "atomic" + "/" + "docker" + "/" + name || gate == "atomic" + "/" + "podman" + "/" + name)
  }

  lemma RuntimeGateExactly(gate: Gate)
    ensures RuntimeGate(gate) <==> NativeGate(gate)
  {
    var parts := T.Split(gate, '/');
    if RuntimeGate(gate) {
      assert parts == [parts[0], parts[1], parts[2]];
      T.SplitInThree(gate, parts[0], parts[1], parts[2], '/');
    }
    forall name | '/' !in name
      ensures gate == "atomic" + "/" + "docker" + "/" + name ==> RuntimeGate(gate)
      ensures gate == "atomic" + "/" + "podman" + "/" + name ==> RuntimeGate(gate)
    {
      T.SplitInThree(gate, "atomic", "docker", name, '/');
      T.SplitInThree(gate, "atomic", "podman", name, '/');
    }
  }

  ghost predicate SomeNative(gates: seq<Gate>) { exists g :: g in gates && NativeGate(g) }

  predicate PublicContracts(gates: seq<Gate>) { "integration/static/public-contracts" in gates }

  /** The jobs a plan requires, by name: four always, three more for native gates, one for the public
      contracts, and the pin job that the dependencies choose. */
  lemma RequiredExactly(plan: Plan, j: Job)
    requires plan.gates.Some?
    ensures j in RequiredJobs(plan) <==> RequiredByName(plan.gates.value, plan.dependencies, j)
  {
    SomeNativeExactly(plan.gates.value);
    JobsByName(j);
    PinsByName(plan.dependencies, j);
  }

  ghost predicate RequiredByName(gates: seq<Gate>, d: Option<seq<string>>, j: Job)
  {
    || AlwaysRequired(j) || (SomeNative(gates) && RequiredByNative(j))
    || (PublicContracts(gates) && j == "pr_public_contracts")
    || ((SomeNative(gates) || PublicContracts(gates)) && RequiredByPins(d, j))
  }

  predicate AlwaysRequired(j: Job)
  {
    j == "workflow_policy" || j == "pr_plan" || j == "pr_focused" || j == "pr_validations"
  }

  predicate RequiredByNative(j: Job)
  {
    j == "pr_candidate" || j == "pr_runner_interface" || j == "pr_runtime_selected"
  }

  predicate Consumer(x: string) { x == "core" || x == "demo" || x == "console" || x == "connector" }

  /** One pin job, if the dependencies are a list of known consumers. */
  predicate RequiredByPins(d: Option<seq<string>>, j: Job)
  {
    && d.Some? && (forall x :: x in d.value ==> Consumer(x))
    && j == if "console" in d.value || "connector" in d.value then "pr_consumer_pins" else "pr_demo_pin"
  }

  lemma JobsByName(j: Job)
    ensures j in BASE_JOBS <==> AlwaysRequired(j)
    ensures j in RUNTIME_JOBS <==> RequiredByNative(j)
  {
  }

  lemma PinsByName(d: Option<seq<string>>, j: Job)
    ensures DependencyListOk(d) && j == PinJob(d.value) <==> RequiredByPins(d, j)
  {
  }

  lemma SomeNativeExactly(gates: seq<Gate>)
    ensures SomeNative(gates) <==> exists g :: g in gates && RuntimeGate(g)
  {
    forall g | g in gates ensures RuntimeGate(g) <==> NativeGate(g) { RuntimeGateExactly(g); }
  }

  /** The gates with an executor, by name. */
  lemma ExecutableExactly(gate: Gate)
    ensures Executable(gate) <==> NativeGate(gate) || gate == "integration/static/public-contracts"
    ensures Unsupported(gate) <==> !NativeGate(gate) && gate != "integration/static/public-contracts"
  {
    RuntimeGateExactly(gate);
  }

  /** What an empty error list certifies. */
  predicate Certified(plan: Plan, needs: Option<map<Job, JobResult>>, head: Option<string>, integration: Option<string>)
  {
    && plan.schema == Some(PLAN_SCHEMA) && needs.Some?
    && plan.coverage == Some("resolved") && plan.nothingUnresolved
    && (head.Some? ==> plan.head == head) && (integration.Some? ==> plan.integration == integration)
    && plan.gates.Some? && plan.checks.Some? && (plan.gates.value != [] || plan.checks.value != [])
    && JobsCertified(plan, needs.value)
  }

  /** Every gate has an executor with its pins, every required job succeeded and none failed. */
  predicate JobsCertified(plan: Plan, needs: map<Job, JobResult>)
    requires plan.gates.Some?
  {
    && (forall g :: g in plan.gates.value ==> Executable(g))
    && (NeedsPins(plan.gates.value) ==> DependencyListOk(plan.dependencies))
    && (forall j :: j in RequiredJobs(plan) ==> JobSucceeded(needs, j))
    && (forall j :: j in needs ==> needs[j] != Unsuccessful)
  }

  // ---------- what the requests and the verifier ask for, by name ----------

  /** A pin that a gate with these dependencies needs. */
  predicate PinNeeded(d: set<string>, n: string)
  {
    || (n == "demo_sha" && "demo" in d) || (n == "console_sha" && "console" in d)
    || (n == "connector_sha" && "connector" in d)
  }

  lemma PinNeededExactly(d: set<string>, n: string)
    ensures n in RequiredPins(d) <==> PinNeeded(d, n)
  {
    assert "demo" + "_sha" == "demo_sha";
    assert "console" + "_sha" == "console_sha";
    assert "connector" + "_sha" == "connector_sha";
  }

  /** The dependencies of a native gate are known consumers, the core among them, and each pin they need is
      given in full. */
  predicate PinnedByName(d: Option<set<string>>, pins: map<string, string>)
  {
    && d.Some? && "core" in d.value && (forall x :: x in d.value ==> Consumer(x))
    && forall n :: n in pins.Keys + {"demo_sha", "console_sha", "connector_sha"} && PinNeeded(d.value, n) ==>
         n in pins && T.Hex40(Some(pins[n]))
  }

  lemma GateRequestableExactly(gate: Gate, catalog: map<Gate, Option<set<string>>>, pins: map<string, string>)
    requires gate in catalog
    ensures GateRequestable(gate, catalog, pins) <==> PinnedByName(catalog[gate], pins)
  {
    if catalog[gate].Some? {
      var d := catalog[gate].value;
      forall n ensures n in RequiredPins(d) <==> PinNeeded(d, n) { PinNeededExactly(d, n); }
    }
  }

  /** A plan can be requested exactly if it has the schema and names its four commits in full, the pins are
      known, the selection is a list of distinct catalog gates, and every native gate is pinned. */
  lemma AllRequestableExactly(plan: Plan, catalog: map<Gate, Option<set<string>>>, pins: map<string, string>)
    ensures AllRequestable(plan, catalog, pins) <==>
      && plan.schema == Some("baseharbor.pr-gate-plan/v1")
      && T.Hex40(plan.targetBase) && T.Hex40(plan.head) && T.Hex40(plan.mergeBase) && T.Hex40(plan.integration)
      && (forall n :: n in pins ==> n == "demo_sha" || n == "console_sha" || n == "connector_sha")
      && plan.gates.Some? && |plan.gates.value| > 0
      && (forall i, j :: 0 <= i < j < |plan.gates.value| ==> plan.gates.value[i] != plan.gates.value[j])
      && (forall g :: g in plan.gates.value ==> g in catalog)
      && forall g :: g in plan.gates.value && NativeGate(g) ==> PinnedByName(catalog[g], pins)
  {
    assert Requestable(plan, catalog, pins) <==>
      && plan.schema == Some("baseharbor.pr-gate-plan/v1")
      && T.Hex40(plan.targetBase) && T.Hex40(plan.head) && T.Hex40(plan.mergeBase) && T.Hex40(plan.integration)
      && (forall n :: n in pins ==> n == "demo_sha" || n == "console_sha" || n == "connector_sha")
      && plan.gates.Some? && |plan.gates.value| > 0
      && (forall i, j :: 0 <= i < j < |plan.gates.value| ==> plan.gates.value[i] != plan.gates.value[j])
      && (forall g :: g in plan.gates.value ==> g in catalog);
    if Requestable(plan, catalog, pins) {
      forall g | g in plan.gates.value
        ensures RuntimeGate(g) <==> NativeGate(g)
        ensures GateRequestable(g, catalog, pins) <==> PinnedByName(catalog[g], pins)
      {
        RuntimeGateExactly(g);
        GateRequestableExactly(g, catalog, pins);
      }
    }
  }

  /** A request names the plan's four commits and carries exactly the pins its gate needs, as given. */
  lemma RequestMatchesExactly(q: Request, plan: Plan, catalog: map<Gate, Option<set<string>>>,
                              pins: map<string, string>)
    requires plan.targetBase.Some? && plan.head.Some? && plan.mergeBase.Some? && plan.integration.Some?
    requires RequestMatches(q, plan, catalog, pins)
    ensures Some(q.targetBase) == plan.targetBase && Some(q.head) == plan.head
    ensures Some(q.mergeBase) == plan.mergeBase && Some(q.integration) == plan.integration
    ensures q.gate in catalog && catalog[q.gate].Some?
    ensures forall n :: n in q.pins <==> PinNeeded(catalog[q.gate].value, n)
    ensures forall n :: n in q.pins ==> n in pins && q.pins[n] == pins[n] && T.Hex40(Some(q.pins[n]))
  {
    forall n ensures n in q.pins <==> PinNeeded(catalog[q.gate].value, n) {
      PinNeededExactly(catalog[q.gate].value, n);
    }
  }

  /** What an empty error list says, by name. */
  lemma CertifiedExactly(plan: Plan, needs: map<Job, JobResult>, head: Option<string>, integration: Option<string>)
    ensures Certified(plan, Some(needs), head, integration) <==>
      && plan.schema == Some("baseharbor.pr-gate-plan/v1") && plan.coverage == Some("resolved")
      && plan.nothingUnresolved == true
      && (head != None ==> plan.head == head) && (integration != None ==> plan.integration == integration)
      && plan.gates.Some? && plan.checks.Some? && |plan.gates.value| + |plan.checks.value| > 0
      && JobsCertifiedByName(plan.gates.value, plan.dependencies, needs)
  {
    if plan.gates.Some? { JobsCertifiedExactly(plan, needs); }
  }

  ghost predicate JobsCertifiedByName(gates: seq<Gate>, d: Option<seq<string>>, needs: map<Job, JobResult>)
  {
    && (forall g :: g in gates ==> NativeGate(g) || g == "integration/static/public-contracts")
    && (SomeNative(gates) || PublicContracts(gates) ==> d.Some? && forall x :: x in d.value ==> Consumer(x))
    && (forall j :: RequiredByName(gates, d, j) ==> j in needs && needs[j].Success?)
    && (forall j :: j in needs ==> needs[j].Success? || needs[j].Skipped?)
  }

  lemma JobsCertifiedExactly(plan: Plan, needs: map<Job, JobResult>)
    requires plan.gates.Some?
    ensures JobsCertified(plan, needs) <==> JobsCertifiedByName(plan.gates.value, plan.dependencies, needs)
  {
    SomeNativeExactly(plan.gates.value);
    AllExecutableExactly(plan.gates.value);
    AllSucceededExactly(plan, needs);
    DependenciesByName(plan.dependencies);
    NoneFailedExactly(needs);
  }

  lemma AllExecutableExactly(gates: seq<Gate>)
    ensures (forall g :: g in gates ==> Executable(g)) <==>
      forall g :: g in gates ==> NativeGate(g) || g == "integration/static/public-contracts"
  {
    forall g ensures Executable(g) <==> NativeGate(g) || g == "integration/static/public-contracts" {
      ExecutableExactly(g);
    }
  }

  lemma AllSucceededExactly(plan: Plan, needs: map<Job, JobResult>)
    requires plan.gates.Some?
    ensures (forall j :: j in RequiredJobs(plan) ==> JobSucceeded(needs, j)) <==>
      forall j :: RequiredByName(plan.gates.value, plan.dependencies, j) ==> j in needs && needs[j].Success?
  {
    forall j ensures j in RequiredJobs(plan) <==> RequiredByName(plan.gates.value, plan.dependencies, j) {
      RequiredExactly(plan, j);
    }
  }

  lemma DependenciesByName(d: Option<seq<string>>)
    ensures DependencyListOk(d) <==> d.Some? && forall x :: x in d.value ==> Consumer(x)
  {
  }

  lemma NoneFailedExactly(needs: map<Job, JobResult>)
    ensures (forall j :: j in needs ==> needs[j] != Unsuccessful) <==>
      forall j :: j in needs ==> needs[j].Success? || needs[j].Skipped?
  {
  }

  lemma RuntimeGateStart(gate: Gate)
    requires RuntimeGate(gate)
    ensures gate != "" && gate[0] == 'a'
  {
    var first := T.Split(gate, '/')[0];
    assert first == gate[..T.IndexOf(gate, '/')] || first == gate;
    assert first[0] == 'a';
  }

  lemma ContractsGateIsNoRuntimeGate(gate: Gate)
    requires gate == CONTRACTS
    ensures !RuntimeGate(gate)
  {
    if RuntimeGate(gate) { RuntimeGateStart(gate); }
  }

  lemma GateJobsGrow(gates: seq<Gate>, gate: Gate)
    ensures GateJobs(gates + [gate]) == GateJobs(gates)
              + (if RuntimeGate(gate) then RUNTIME_JOBS else {})
              + (if gate == CONTRACTS then {"pr_public_contracts"} else {})
  {
    var more := gates + [gate];
    assert forall g :: g in more <==> g in gates || g == gate;
    assert gate in more;
  }

  lemma PinsAreNeededByJobs(gates: seq<Gate>)
    ensures ("pr_runtime_selected" in GateJobs(gates) || "pr_public_contracts" in GateJobs(gates)) <==> NeedsPins(gates)
  {
  }

  /** `verify`: the error list is empty exactly when everything above is certified. */
  method Verify(plan: Plan, needs: Option<map<Job, JobResult>>, head: Option<string>, integration: Option<string>)
    returns (errors: seq<Problem>)
    ensures errors == [] <==> Certified(plan, needs, head, integration)
  {
    if plan.schema != Some(PLAN_SCHEMA) { return [InvalidPlanObject]; }
    if needs.None? { return [MissingNeeds]; }
    errors := [];
    if plan.coverage != Some("resolved") || !plan.nothingUnresolved { errors := errors + [Unresolved]; }
    if head.Some? && plan.head != head { errors := errors + [OtherHead]; }
    if integration.Some? && plan.integration != integration { errors := errors + [OtherIntegration]; }
    if plan.gates.None? { return errors + [InvalidGates]; }
    if plan.checks.None? { return errors + [InvalidChecks]; }
    var gates := plan.gates.value;
    if gates == [] && plan.checks.value == [] { errors := errors + [NothingSelected]; }
    var jobErrors := VerifyJobs(plan, needs.value);
    errors := errors + jobErrors;
  }

  /** The part of `verify` that looks at executors, pins and jobs. */
  method VerifyJobs(plan: Plan, needs: map<Job, JobResult>) returns (errors: seq<Problem>)
    requires plan.gates.Some?
    ensures errors == [] <==> JobsCertified(plan, needs)
  {
    var gates := plan.gates.value;
    var required;
    required, errors := CollectRequired(gates);
    PinsAreNeededByJobs(gates);
    if "pr_runtime_selected" in required || "pr_public_contracts" in required {
      if !DependencyListOk(plan.dependencies) {
        errors := errors + [InvalidDependencies];
      } else {
        required := required + {PinJob(plan.dependencies.value)};
      }
    }
    assert required == RequiredJobs(plan);
    var jobErrors := CheckJobs(required, needs);
    errors := errors + jobErrors;
  }

  function JobsOf(gate: Gate): set<Job>
  {
    (if RuntimeGate(gate) then RUNTIME_JOBS else {}) + (if gate == CONTRACTS then {"pr_public_contracts"} else {})
  }

  function JobsUpTo(of: Gate -> set<Job>, gates: seq<Gate>, k: nat): set<Job>
    requires k <= |gates|
  {
    if k == 0 then BASE_JOBS else JobsUpTo(of, gates, k - 1) + of(gates[k - 1])
  }

  function ErrorsOf(ok: Gate -> bool, gate: Gate): seq<Problem> { if ok(gate) then [] else [NoExecutor(gate)] }

  function ErrorsUpTo(ok: Gate -> bool, gates: seq<Gate>, k: nat): seq<Problem>
    requires k <= |gates|
  {
    if k == 0 then [] else ErrorsUpTo(ok, gates, k - 1) + ErrorsOf(ok, gates[k - 1])
  }

  lemma JobsOfNoGate(gates: seq<Gate>)
    requires gates == []
    ensures GateJobs(gates) == BASE_JOBS
  {
  }

  /** What starts alike and grows alike is what the loop collects. */
  lemma {:induction false} JobsUpToTell(of: Gate -> set<Job>, total: seq<Gate> -> set<Job>, gates: seq<Gate>, k: nat)
    requires k <= |gates| && total([]) == BASE_JOBS
    requires forall j :: 0 <= j < |gates| ==> total(gates[..j + 1]) == total(gates[..j]) + of(gates[j])
    ensures JobsUpTo(of, gates, k) == total(gates[..k])
    decreases k
  {
    if k == 0 {
      assert gates[..k] == [];
    } else {
      JobsUpToTell(of, total, gates, k - 1);
      assert gates[..k - 1 + 1] == gates[..k];
    }
  }

  lemma JobsUpToAreGateJobs(gates: seq<Gate>)
    ensures JobsUpTo(JobsOf, gates, |gates|) == GateJobs(gates)
  {
    JobsOfNoGate([]);
    forall j | 0 <= j < |gates| ensures GateJobs(gates[..j + 1]) == GateJobs(gates[..j]) + JobsOf(gates[j]) {
      JobsGrow(gates, j);
    }
    JobsUpToTell(JobsOf, GateJobs, gates, |gates|);
    assert gates[..|gates|] == gates;
  }

  lemma JobsGrow(gates: seq<Gate>, k: nat)
    requires k < |gates|
    ensures GateJobs(gates[..k + 1]) == GateJobs(gates[..k]) + JobsOf(gates[k])
  {
    assert gates[..k + 1] == gates[..k] + [gates[k]];
    GateJobsGrow(gates[..k], gates[k]);
  }

  lemma BothEmpty(a: seq<Problem>, b: seq<Problem>)
    ensures a + b == [] <==> a == [] && b == []
  {
    assert |a + b| == |a| + |b|;
  }

  lemma {:induction false} ErrorsTell(ok: Gate -> bool, gates: seq<Gate>, k: nat)
    requires k <= |gates|
    ensures |ErrorsUpTo(ok, gates, k)| == 0 <==> AllOk(ok, gates, k)
    decreases k
  {
    if k > 0 {
      ErrorsTell(ok, gates, k - 1);
      OneMoreError(ok, gates, k);
      OneMoreOk(ok, gates, k);
    }
  }

  predicate AllOk(ok: Gate -> bool, gates: seq<Gate>, k: nat)
    requires k <= |gates|
  {
    forall i :: 0 <= i < k ==> ok(gates[i])
  }

  lemma OneMoreOk(ok: Gate -> bool, gates: seq<Gate>, k: nat)
    requires 0 < k <= |gates|
    ensures AllOk(ok, gates, k) <==> AllOk(ok, gates, k - 1) && ok(gates[k - 1])
  {
  }

  lemma OneMoreError(ok: Gate -> bool, gates: seq<Gate>, k: nat)
    requires 0 < k <= |gates|
    ensures |ErrorsUpTo(ok, gates, k)| == 0 <==> |ErrorsUpTo(ok, gates, k - 1)| == 0 && ok(gates[k - 1])
  {
    BothEmpty(ErrorsUpTo(ok, gates, k - 1), ErrorsOf(ok, gates[k - 1]));
  }

  lemma NoErrorsMeans(ok: Gate -> bool, gates: seq<Gate>)
    ensures ErrorsUpTo(ok, gates, |gates|) == [] <==> forall g :: g in gates ==> ok(g)
  {
    ErrorsTell(ok, gates, |gates|);
    if forall i :: 0 <= i < |gates| ==> ok(gates[i]) {
      forall g | g in gates ensures ok(g) {
        var i :| 0 <= i < |gates| && gates[i] == g;
      }
    }
  }

  /** The loop over the gates: grows the required jobs and the errors. */
  method CollectRequired(gates: seq<Gate>) returns (required: set<Job>, errors: seq<Problem>)
    ensures required == GateJobs(gates)
    ensures errors == [] <==> forall g :: g in gates ==> Executable(g)
  {
    required, errors := CollectAll(gates);
    JobsUpToAreGateJobs(gates);
    NoErrorsMeans(Executable, gates);
    assert gates[..|gates|] == gates;
  }

  method CollectAll(gates: seq<Gate>) returns (required: set<Job>, errors: seq<Problem>)
    ensures required == JobsUpTo(JobsOf, gates, |gates|) && errors == ErrorsUpTo(Executable, gates, |gates|)
  {
    required, errors := BASE_JOBS, [];
    for i := 0 to |gates|
      invariant required == JobsUpTo(JobsOf, gates, i) && errors == ErrorsUpTo(Executable, gates, i)
    {
      var jobs, bad := JobsOfGate(gates[i]);
      required, errors := required + jobs, errors + bad;
    }
  }

  /** What one gate requires: the jobs of its executor, or an error. */
  method JobsOfGate(gate: Gate) returns (jobs: set<Job>, errors: seq<Problem>)
    ensures jobs == JobsOf(gate) && errors == ErrorsOf(Executable, gate)
  {
    if RuntimeGate(gate) {
      if gate == CONTRACTS { ContractsGateIsNoRuntimeGate(gate); }
      return RUNTIME_JOBS, [];
    } else if gate == CONTRACTS {
      return {"pr_public_contracts"}, [];
    } else {
      return {}, [NoExecutor(gate)];
    }
  }

  /** The loops over the required jobs and over all jobs. */
  method CheckJobs(required: set<Job>, needs: map<Job, JobResult>) returns (errors: seq<Problem>)
    ensures errors == [] <==> (forall j :: j in required ==> JobSucceeded(needs, j))
                              && (forall j :: j in needs ==> needs[j] != Unsuccessful)
  {
    errors := [];
    var todo := required;
    while todo != {}
      invariant todo <= required
      invariant errors == [] <==> forall j :: j in required - todo ==> JobSucceeded(needs, j)
    {
      var j :| j in todo;
      if !JobSucceeded(needs, j) { errors := errors + [RequiredJobFailed(j)]; }
      assert required - (todo - {j}) == (required - todo) + {j};
      todo := todo - {j};
    }
    assert required - todo == required;
    var rest := needs.Keys;
    ghost var before := errors;
    while rest != {}
      invariant rest <= needs.Keys
      invariant errors == [] <==> before == [] && forall j :: j in needs.Keys - rest ==> needs[j] != Unsuccessful
    {
      var j :| j in rest;
      if needs[j] == Unsuccessful { errors := errors + [JobFailed(j)]; }
      assert needs.Keys - (rest - {j}) == (needs.Keys - rest) + {j};
      rest := rest - {j};
    }
    assert needs.Keys - rest == needs.Keys;
  }

  // ---------- agreement ----------

  /** The job that executes a gate. */
  function Executor(gate: Gate): Job { if RuntimeGate(gate) then "pr_runtime_selected" else "pr_public_contracts" }

  /** Members determine an ascending list. */
  lemma AscendingIsDetermined(a: seq<Gate>, b: seq<Gate>)
    requires Ascending(a) && Ascending(b) && forall g :: g in a <==> g in b
    ensures a == b
  {
    forall g ensures multiset(a)[g] == multiset(b)[g] {
      OnceEach(a, g);
      OnceEach(b, g);
      assert g in multiset(a) <==> g in a;
      assert g in multiset(b) <==> g in b;
    }
    LexIsTotalOrder();
    SortedArrangementIsUnique(LexLe, a, b);
  }

  lemma FirstIsMember(gates: seq<Gate>)
    ensures gates == [] || gates[0] in gates
  {
  }

  /** The three readers agree: when the verifier certifies a plan that the matrix accepts, no gate
      is left unsupported, the matrix and the requests list the same gates, and the executor of
      every selected gate succeeded. */
  method ReadersAgree(plan: Plan, needs: map<Job, JobResult>, catalog: map<Gate, Option<set<string>>>,
                      pins: map<string, string>)
    returns (matrix: Result<Matrix, SelectError>, requests: Result<seq<Request>, RequestError>, errors: seq<Problem>)
    ensures matrix.Ok? <==> Selectable(plan, catalog.Keys)
    ensures requests.Ok? <==> AllRequestable(plan, catalog, pins)
    ensures errors == [] <==> Certified(plan, Some(needs), None, None)
    ensures matrix.Ok? && requests.Ok? ==> matrix.value.included == GatesOf(requests.value)
    ensures matrix.Ok? && errors == [] ==> matrix.value.unsupported == []
    ensures errors == [] ==> plan.gates.Some? && forall g :: g in plan.gates.value ==> JobSucceeded(needs, Executor(g))
    ensures matrix.Ok? && matrix.value.unsupported != [] ==> errors != []
  {
    matrix := Select(plan, catalog.Keys);
    requests := Requests(plan, catalog, pins);
    if matrix.Ok? && requests.Ok? { AscendingIsDetermined(matrix.value.included, GatesOf(requests.value)); }
    errors := Verify(plan, Some(needs), None, None);
    if errors == [] {
      forall g | g in plan.gates.value
        ensures JobSucceeded(needs, Executor(g))
      {
        assert Executor(g) in RequiredJobs(plan);
      }
      if matrix.Ok? {
        assert forall g :: g in matrix.value.unsupported ==> g in plan.gates.value && !Executable(g);
        FirstIsMember(matrix.value.unsupported);
      }
    }
  }
}
