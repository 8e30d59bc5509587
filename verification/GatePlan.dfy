/** The gate planner: exact reviewed bundles first, then a fail-closed classification path by path.
    The hard-coded file lists are parameters; what is fixed here is how they are combined. */
module GatePlan {
  import opened Wrappers
  import T = Text

  type Path = string
  type Status = string
  type Gate = string
  type Check = string

  /** What one path contributes. */
  datatype Impact = Impact(checks: set<Check>, gates: set<Gate>, problems: seq<string>)

  /** The branches of the per-path chain. `first` holds those ahead of the one `qualified` path,
      whose content the planner never resolves, `early` those from there to the test-only branch, and
      `late` those behind the command-line catch-all; all three look at the path and its status only. */
  datatype Policy = Policy(
    first: (Path, Status) -> Option<Impact>,
    early: (Path, Status) -> Option<Impact>,
    qualified: Path,
    qualifiedChecks: set<Check>,
    qualifiedHeadTrusted: bool,
    reviewedTests: set<Path>,
    testChecks: set<Check>,
    commandChecks: set<Check>,
    late: (Path, Status) -> Impact)

  /** A reviewed candidate: applies to exactly this status of exactly these files, on a trusted head. Unless
      it is compared path by path, it is compared with the path of each change, which a move does not have. */
  datatype Bundle =
    Bundle(files: map<Path, Status>, byPath: bool, trusted: bool, checks: set<Check>, gates: set<Gate>)

  datatype Entry = Entry(path: Path, status: Status)

  datatype Plan = Plan(unresolved: seq<string>, gates: set<Gate>, checks: set<Check>)

  predicate Resolved(p: Plan) { p.unresolved == [] }

  predicate StartsWith(s: string, prefix: string) { prefix <= s }

  predicate CommandTest(path: Path) { StartsWith(path, "cmd/baha/") && T.EndsWith(path, "_test.go") }

  predicate CommandSource(path: Path) { StartsWith(path, "cmd/baha/") && T.EndsWith(path, ".go") }

  /** A reviewed test file keeps its exact-candidate contract. */
  predicate ReviewedTest(p: Policy, path: Path) { T.EndsWith(path, "_test.go") && path in p.reviewedTests }

  /** The test-only branch depends on the whole change, not only on the path. */
  predicate TestOnlyChange(p: Policy, all: set<Path>)
  {
    forall q :: q in all ==> T.EndsWith(q, "_test.go") && !ReviewedTest(p, q)
  }

  /** `all` are the changed paths and `alone` says that only one path was listed. */
  function Classify(p: Policy, path: Path, status: Status, all: set<Path>, alone: bool): Impact
  {
    var first, early := p.first(path, status), p.early(path, status);
    if first.Some? then first.value
    else if path == p.qualified then
      Impact(p.qualifiedChecks, {},
             (if !alone || status != "added" || !p.qualifiedHeadTrusted then ["differs from the reviewed candidate"]
              else [])
             + ["content requires independent qualification"])
    else if early.Some? then early.value
    else if CommandTest(path) && TestOnlyChange(p, all) then Impact(p.testChecks, {}, [])
    else if CommandSource(path) then Impact(p.commandChecks, {}, ["runtime impact needs targeted coverage"])
    else p.late(path, status)
  }

  // ---------- the plan as a function ----------

  function Paths(entries: seq<Entry>): set<Path> { set i | 0 <= i < |entries| :: entries[i].path }

  /** `path_status`: a later change of the same path overwrites an earlier one. */
  function StatusOf(entries: seq<Entry>): (m: map<Path, Status>)
    ensures m.Keys == Paths(entries)
  {
    if entries == [] then map[]
    else
      var n := |entries| - 1;
      var m := StatusOf(entries[..n])[entries[n].path := entries[n].status];
      assert Paths(entries) == Paths(entries[..n]) + {entries[n].path};
      m
  }

  function ImpactAt(p: Policy, entries: seq<Entry>, i: nat): Impact
    requires i < |entries|
  {
    Classify(p, entries[i].path, StatusOf(entries)[entries[i].path], Paths(entries), |entries| == 1)
  }

  /** The gates and checks of the first `k` entries. */
  function GatesUpTo(p: Policy, entries: seq<Entry>, k: nat): set<Gate>
    requires k <= |entries|
  {
    if k == 0 then {} else GatesUpTo(p, entries, k - 1) + ImpactAt(p, entries, k - 1).gates
  }

  function ChecksUpTo(p: Policy, entries: seq<Entry>, k: nat): set<Check>
    requires k <= |entries|
  {
    if k == 0 then {} else ChecksUpTo(p, entries, k - 1) + ImpactAt(p, entries, k - 1).checks
  }

  function GatesOf(p: Policy, entries: seq<Entry>): set<Gate> { GatesUpTo(p, entries, |entries|) }

  function ChecksOf(p: Policy, entries: seq<Entry>): set<Check> { ChecksUpTo(p, entries, |entries|) }

  /** The first `k` entries are classified without a problem. */
  predicate Untroubled(p: Policy, entries: seq<Entry>, k: nat)
    requires k <= |entries|
  {
    forall i :: 0 <= i < k ==> ImpactAt(p, entries, i).problems == []
  }

  /** No path has a problem, every mapped gate exists, and there is something to plan. */
  predicate Clean(p: Policy, catalog: set<Gate>, entries: seq<Entry>)
  {
    entries != [] && Untroubled(p, entries, |entries|) && GatesOf(p, entries) <= catalog
  }

  /** The per-path loop. */
  method ClassifyPaths(p: Policy, entries: seq<Entry>, initial: seq<string>)
    returns (unresolved: seq<string>, selected: set<Gate>, validations: set<Check>)
    ensures unresolved == [] <==> initial == [] && Untroubled(p, entries, |entries|)
    ensures selected == GatesOf(p, entries) && validations == ChecksOf(p, entries)
  {
    unresolved, selected, validations := initial, {}, {};
    var status, all := StatusOf(entries), Paths(entries);
    for i := 0 to |entries|
      invariant unresolved == [] <==> initial == [] && Untroubled(p, entries, i)
      invariant selected == GatesUpTo(p, entries, i)
      invariant validations == ChecksUpTo(p, entries, i)
    {
      assert entries[i].path in all;
      var impact := Classify(p, entries[i].path, status[entries[i].path], all, |entries| == 1);
      assert impact == ImpactAt(p, entries, i);
      UntroubledNext(p, entries, i);
      validations := validations + impact.checks;
      selected := selected + impact.gates;
      unresolved := unresolved + impact.problems;
    }
  }

  lemma UntroubledNext(p: Policy, entries: seq<Entry>, i: nat)
    requires i < |entries|
    ensures Untroubled(p, entries, i + 1) <==> Untroubled(p, entries, i) && ImpactAt(p, entries, i).problems == []
  {
    if Untroubled(p, entries, i + 1) { assert ImpactAt(p, entries, i).problems == []; }
  }

  // ---------- which branch a path takes, and what it brings ----------

  datatype Branch = First | Qualified | Early | PackageTests | CommandLine | Late

  /** A path under the command's directory with this ending. */
  predicate CommandFile(path: Path, ending: string)
  {
    "cmd/baha/" <= path && |ending| <= |path| && path[|path| - |ending|..] == ending
  }

  predicate OnlyOpenTests(p: Policy, all: set<Path>)
  {
    forall q :: q in all ==> |q| >= 8 && q[|q| - 8..] == "_test.go" && q !in p.reviewedTests
  }

  /** Each branch is taken only when no earlier one is. */
  predicate Takes(p: Policy, path: Path, status: Status, all: set<Path>, branch: Branch)
  {
    var claimed := p.first(path, status).Some? || path == p.qualified || p.early(path, status).Some?;
    var tests := CommandFile(path, "_test.go") && OnlyOpenTests(p, all);
    match branch
    case First => p.first(path, status).Some?
    case Qualified => p.first(path, status).None? && path == p.qualified
    case Early => p.first(path, status).None? && path != p.qualified && p.early(path, status).Some?
    case PackageTests => !claimed && tests
    case CommandLine => !claimed && !tests && CommandFile(path, ".go")
    case Late => !claimed && !tests && !CommandFile(path, ".go")
  }

  /** The native gates that a branch selects; the three branches for command files select none. */
  function BranchGates(p: Policy, path: Path, status: Status, branch: Branch): set<Gate>
  {
    match branch
    case First => if p.first(path, status).Some? then p.first(path, status).value.gates else {}
    case Early => if p.early(path, status).Some? then p.early(path, status).value.gates else {}
    case Late => p.late(path, status).gates
    case _ => {}
  }

  function BranchChecks(p: Policy, path: Path, status: Status, branch: Branch): set<Check>
  {
    match branch
    case First => if p.first(path, status).Some? then p.first(path, status).value.checks else {}
    case Qualified => p.qualifiedChecks
    case Early => if p.early(path, status).Some? then p.early(path, status).value.checks else {}
    case PackageTests => p.testChecks
    case CommandLine => p.commandChecks
    case Late => p.late(path, status).checks
  }

  lemma OneBranch(p: Policy, path: Path, status: Status, all: set<Path>)
    ensures exists b :: Takes(p, path, status, all, b)
    ensures forall b, c :: Takes(p, path, status, all, b) && Takes(p, path, status, all, c) ==> b == c
  {
    var b := if p.first(path, status).Some? then First
             else if path == p.qualified then Qualified
             else if p.early(path, status).Some? then Early
             else if CommandFile(path, "_test.go") && OnlyOpenTests(p, all) then PackageTests
             else if CommandFile(path, ".go") then CommandLine
             else Late;
    assert Takes(p, path, status, all, b);
  }

  lemma ClassifyByBranch(p: Policy, path: Path, status: Status, all: set<Path>, alone: bool, b: Branch)
    requires Takes(p, path, status, all, b)
    ensures Classify(p, path, status, all, alone).gates == BranchGates(p, path, status, b)
    ensures Classify(p, path, status, all, alone).checks == BranchChecks(p, path, status, b)
  {
    assert CommandTest(path) <==> CommandFile(path, "_test.go");
    assert CommandSource(path) <==> CommandFile(path, ".go");
    assert TestOnlyChange(p, all) <==> OnlyOpenTests(p, all);
  }

  /** The qualified path always keeps a problem, and a second one unless it is the only path, newly added on
      a trusted head. */
  lemma QualifiedIsUnresolved(p: Policy, path: Path, status: Status, all: set<Path>, alone: bool)
    requires Takes(p, path, status, all, Qualified)
    ensures |Classify(p, path, status, all, alone).problems| ==
      if alone == true && status == "added" && p.qualifiedHeadTrusted == true then 1 else 2
  {
  }

  /** The `i`-th entry takes this branch and is the last change of its path. */
  predicate TakenAt(p: Policy, entries: seq<Entry>, i: nat, b: Branch)
  {
    && i < |entries| && (forall j :: i < j < |entries| ==> entries[j].path != entries[i].path)
    && Takes(p, entries[i].path, entries[i].status, Paths(entries), b)
  }

  lemma {:induction false} StatusOfLast(entries: seq<Entry>, i: nat)
    requires i < |entries| && forall j :: i < j < |entries| ==> entries[j].path != entries[i].path
    ensures entries[i].path in StatusOf(entries) && StatusOf(entries)[entries[i].path] == entries[i].status
  {
    var n := |entries| - 1;
    if i < n {
      assert entries[..n][i] == entries[i];
      StatusOfLast(entries[..n], i);
    }
  }

  lemma {:induction false} LastChange(entries: seq<Entry>, i: nat) returns (k: nat)
    requires i < |entries|
    ensures i <= k < |entries| && entries[k].path == entries[i].path
    ensures forall j :: k < j < |entries| ==> entries[j].path != entries[k].path
    decreases |entries| - i
  {
    if j: nat :| i < j < |entries| && entries[j].path == entries[i].path {
      k := LastChange(entries, j);
    } else {
      k := i;
    }
  }

  lemma ImpactByBranch(p: Policy, entries: seq<Entry>, i: nat, b: Branch)
    requires TakenAt(p, entries, i, b)
    ensures ImpactAt(p, entries, i).gates == BranchGates(p, entries[i].path, entries[i].status, b)
    ensures ImpactAt(p, entries, i).checks == BranchChecks(p, entries[i].path, entries[i].status, b)
  {
    StatusOfLast(entries, i);
    ClassifyByBranch(p, entries[i].path, entries[i].status, Paths(entries), |entries| == 1, b);
  }

  ghost predicate GateMapped(p: Policy, entries: seq<Entry>, g: Gate)
  {
    exists i: nat, b :: TakenAt(p, entries, i, b) && g in BranchGates(p, entries[i].path, entries[i].status, b)
  }

  ghost predicate CheckMapped(p: Policy, entries: seq<Entry>, c: Check)
  {
    exists i: nat, b :: TakenAt(p, entries, i, b) && c in BranchChecks(p, entries[i].path, entries[i].status, b)
  }

  lemma {:induction false} FromSomeEntry(p: Policy, entries: seq<Entry>, k: nat, g: Gate, c: Check)
    requires k <= |entries|
    ensures g in GatesUpTo(p, entries, k) ==> exists i :: 0 <= i < k && g in ImpactAt(p, entries, i).gates
    ensures c in ChecksUpTo(p, entries, k) ==> exists i :: 0 <= i < k && c in ImpactAt(p, entries, i).checks
  {
    if k > 0 {
      FromSomeEntry(p, entries, k - 1, g, c);
      if g in ImpactAt(p, entries, k - 1).gates { assert 0 <= k - 1 < k; }
    }
  }

  /** Every entry has the impact of the last change of its path. */
  lemma ImpactOfLast(p: Policy, entries: seq<Entry>, i: nat) returns (k: nat, b: Branch)
    requires i < |entries|
    ensures TakenAt(p, entries, k, b) && ImpactAt(p, entries, k) == ImpactAt(p, entries, i)
  {
    k := LastChange(entries, i);
    OneBranch(p, entries[k].path, entries[k].status, Paths(entries));
    b :| Takes(p, entries[k].path, entries[k].status, Paths(entries), b);
  }

  /** The gates and checks of a change are exactly those of the branches that its paths take. */
  lemma MappedExactly(p: Policy, entries: seq<Entry>)
    ensures forall g :: g in GatesOf(p, entries) <==> GateMapped(p, entries, g)
    ensures forall c :: c in ChecksOf(p, entries) <==> CheckMapped(p, entries, c)
  {
    forall g ensures g in GatesOf(p, entries) <==> GateMapped(p, entries, g) { GateMappedExactly(p, entries, g); }
    forall c ensures c in ChecksOf(p, entries) <==> CheckMapped(p, entries, c) { CheckMappedExactly(p, entries, c); }
  }

  lemma GateMappedExactly(p: Policy, entries: seq<Entry>, g: Gate)
    ensures g in GatesOf(p, entries) <==> GateMapped(p, entries, g)
  {
    if g in GatesOf(p, entries) {
      FromSomeEntry(p, entries, |entries|, g, "");
      var i :| 0 <= i < |entries| && g in ImpactAt(p, entries, i).gates;
      var k, b := ImpactOfLast(p, entries, i);
      ImpactByBranch(p, entries, k, b);
    }
    if GateMapped(p, entries, g) {
      var i: nat, b :| TakenAt(p, entries, i, b) && g in BranchGates(p, entries[i].path, entries[i].status, b);
      ImpactByBranch(p, entries, i, b);
      ImpactIncluded(p, entries, i, |entries|);
    }
  }

  lemma CheckMappedExactly(p: Policy, entries: seq<Entry>, c: Check)
    ensures c in ChecksOf(p, entries) <==> CheckMapped(p, entries, c)
  {
    if c in ChecksOf(p, entries) {
      FromSomeEntry(p, entries, |entries|, "", c);
      var i :| 0 <= i < |entries| && c in ImpactAt(p, entries, i).checks;
      var k, b := ImpactOfLast(p, entries, i);
      ImpactByBranch(p, entries, k, b);
    }
    if CheckMapped(p, entries, c) {
      var i: nat, b :| TakenAt(p, entries, i, b) && c in BranchChecks(p, entries[i].path, entries[i].status, b);
      ImpactByBranch(p, entries, i, b);
      ImpactIncluded(p, entries, i, |entries|);
    }
  }

  /** `initial` are the problems found before classification: an invalid or broad diff, an
      unrecognized status, an unsafe path. */
  method PlanByPath(p: Policy, catalog: set<Gate>, entries: seq<Entry>, initial: seq<string>) returns (plan: Plan)
    ensures Resolved(plan) <==> initial == [] && Clean(p, catalog, entries)
    ensures plan.gates == GatesOf(p, entries) * catalog
    ensures plan.checks == ChecksOf(p, entries)
    ensures forall g :: g in plan.gates <==> g in catalog && GateMapped(p, entries, g)
    ensures forall c :: c in plan.checks <==> CheckMapped(p, entries, c)
    ensures Resolved(plan) ==> forall g :: GateMapped(p, entries, g) ==> g in plan.gates
  {
    MappedExactly(p, entries);
    var before := initial;
    if entries == [] { before := before + ["empty changes cannot exempt checks"]; }
    var unresolved, selected, validations := ClassifyPaths(p, entries, before);
    var absent := selected - catalog;
    if absent != {} { unresolved := unresolved + ["required mapped gates absent from trusted catalog"]; }
    AbsentExactly(selected, catalog);
    plan := Plan(unresolved, selected - absent, validations);
  }

  lemma AbsentExactly(selected: set<Gate>, catalog: set<Gate>)
    ensures selected - catalog == {} <==> selected <= catalog
    ensures selected - (selected - catalog) == selected * catalog
  {
    if selected - catalog == {} {
      forall g | g in selected ensures g in catalog { assert g !in selected - catalog; }
    }
  }

  // ---------- subsets of a resolved change are resolved ----------

  predicate DistinctPaths(entries: seq<Entry>)
  {
    forall i, j :: 0 <= i < |entries| && 0 <= j < |entries| && entries[i].path == entries[j].path ==> i == j
  }

  lemma {:induction false} StatusOfDistinct(entries: seq<Entry>, i: nat)
    requires DistinctPaths(entries) && i < |entries|
    ensures entries[i].path in StatusOf(entries) && StatusOf(entries)[entries[i].path] == entries[i].status
  {
    var n := |entries| - 1;
    if i < n {
      assert DistinctPaths(entries[..n]) by {
        assert forall k :: 0 <= k < n ==> entries[..n][k] == entries[k];
      }
      StatusOfDistinct(entries[..n], i);
    }
  }

  lemma CommandTestIsSource(path: Path)
    requires CommandTest(path)
    ensures CommandSource(path)
  {
    assert path[|path| - 3..] == path[|path| - 8..][5..];
    assert "_test.go"[5..] == ".go";
  }

  /** A path that was classified without a problem is classified alike in every smaller change. */
  lemma SmallerChangeSameImpact(p: Policy, path: Path, status: Status,
                                all: set<Path>, alone: bool, fewer: set<Path>, left: bool)
    requires fewer <= all && Classify(p, path, status, all, alone).problems == []
    ensures Classify(p, path, status, fewer, left) == Classify(p, path, status, all, alone)
  {
    if CommandTest(path) { CommandTestIsSource(path); }
  }

  /** Every impact of the part is an impact of the whole. */
  predicate ImpactsAmong(p: Policy, part: seq<Entry>, entries: seq<Entry>)
  {
    forall i :: 0 <= i < |part| ==> exists k :: 0 <= k < |entries| && ImpactAt(p, entries, k) == ImpactAt(p, part, i)
  }

  lemma PartImpact(p: Policy, entries: seq<Entry>, part: seq<Entry>, i: nat) returns (k: nat)
    requires DistinctPaths(entries) && DistinctPaths(part) && Paths(part) <= Paths(entries)
    requires i < |part| && part[i] in entries
    requires Untroubled(p, entries, |entries|)
    ensures k < |entries| && ImpactAt(p, entries, k) == ImpactAt(p, part, i)
  {
    k :| 0 <= k < |entries| && entries[k] == part[i];
    StatusOfDistinct(part, i);
    StatusOfDistinct(entries, k);
    assert ImpactAt(p, entries, k) == Classify(p, part[i].path, part[i].status, Paths(entries), |entries| == 1);
    assert ImpactAt(p, entries, k).problems == [];
    SmallerChangeSameImpact(p, part[i].path, part[i].status, Paths(entries), |entries| == 1, Paths(part), |part| == 1);
  }

  lemma {:induction false} ImpactIncluded(p: Policy, entries: seq<Entry>, k: nat, n: nat)
    requires k < n <= |entries|
    ensures ImpactAt(p, entries, k).gates <= GatesUpTo(p, entries, n)
    ensures ImpactAt(p, entries, k).checks <= ChecksUpTo(p, entries, n)
  {
    if k < n - 1 { ImpactIncluded(p, entries, k, n - 1); }
  }

  lemma {:induction false} ImpactsAmongIncluded(p: Policy, part: seq<Entry>, entries: seq<Entry>, n: nat)
    requires ImpactsAmong(p, part, entries) && n <= |part|
    ensures GatesUpTo(p, part, n) <= GatesOf(p, entries) && ChecksUpTo(p, part, n) <= ChecksOf(p, entries)
  {
    if n > 0 {
      ImpactsAmongIncluded(p, part, entries, n - 1);
      var k :| 0 <= k < |entries| && ImpactAt(p, entries, k) == ImpactAt(p, part, n - 1);
      ImpactIncluded(p, entries, k, |entries|);
    }
  }

  /** If a change of distinct paths is planned without an unresolved path, every non-empty part of
      it is too, and needs no check and no gate that the whole change does not need. */
  lemma PartsOfResolvedChangeAreResolved(p: Policy, catalog: set<Gate>, entries: seq<Entry>, part: seq<Entry>)
    requires Clean(p, catalog, entries) && DistinctPaths(entries) && DistinctPaths(part)
    requires part != [] && forall i :: 0 <= i < |part| ==> part[i] in entries
    ensures Clean(p, catalog, part)
    ensures GatesOf(p, part) <= GatesOf(p, entries) && ChecksOf(p, part) <= ChecksOf(p, entries)
  {
    assert Paths(part) <= Paths(entries);
    forall i | 0 <= i < |part|
      ensures exists k :: 0 <= k < |entries| && ImpactAt(p, entries, k) == ImpactAt(p, part, i)
    {
      var k := PartImpact(p, entries, part, i);
    }
    ImpactsAmongIncluded(p, part, entries, |part|);
  }

  // ---------- reviewed bundles ----------

  predicate Applies(b: Bundle, entries: seq<Entry>)
  {
    b.trusted && |entries| == |b.files| && StatusOf(entries) == b.files && (b.byPath || NoMove(entries))
  }

  predicate MoveStatus(status: Status) { status == "renamed" || status == "copied" }

  /** No entry is a side of a rename or copy. */
  predicate NoMove(entries: seq<Entry>) { forall i :: 0 <= i < |entries| ==> !MoveStatus(entries[i].status) }

  function BundlePlan(b: Bundle, catalog: set<Gate>): Plan
  {
    Plan(if b.gates <= catalog then [] else ["required reviewed gates absent"], b.gates * catalog, b.checks)
  }

  /** The first bundle that applies, from the `k`-th on. */
  function FirstApplicable(bundles: seq<Bundle>, entries: seq<Entry>, k: nat): (r: Option<nat>)
    requires k <= |bundles|
    ensures r.Some? ==> k <= r.value < |bundles| && Applies(bundles[r.value], entries)
    ensures r.Some? ==> forall i :: k <= i < r.value ==> !Applies(bundles[i], entries)
    ensures r.None? ==> forall i :: k <= i < |bundles| ==> !Applies(bundles[i], entries)
    decreases |bundles| - k
  {
    if k == |bundles| then None
    else if Applies(bundles[k], entries) then Some(k)
    else FirstApplicable(bundles, entries, k + 1)
  }

  /** The bundle that decides; only a diff with an integration commit can have one. */
  function Deciding(bundles: seq<Bundle>, entries: seq<Entry>, integrated: bool): (r: Option<nat>)
    ensures r.Some? ==> r.value < |bundles| && Applies(bundles[r.value], entries)
  {
    if integrated then FirstApplicable(bundles, entries, 0) else None
  }

  /** What can be planned without an unresolved path, once nothing was wrong with the diff. */
  predicate Resolvable(p: Policy, bundles: seq<Bundle>, catalog: set<Gate>, entries: seq<Entry>, integrated: bool)
  {
    && entries != []
    && match Deciding(bundles, entries, integrated)
       case Some(i) => bundles[i].gates <= catalog
       case None => Clean(p, catalog, entries)
  }

  /** The gates and checks of a plan. */
  predicate PlannedFor(p: Policy, bundles: seq<Bundle>, catalog: set<Gate>, entries: seq<Entry>, integrated: bool,
                       plan: Plan)
  {
    match Deciding(bundles, entries, integrated)
    case Some(i) => plan.gates == bundles[i].gates * catalog && plan.checks == bundles[i].checks
    case None => plan.gates == GatesOf(p, entries) * catalog && plan.checks == ChecksOf(p, entries)
  }

  /** `plan`: the first applicable bundle decides, provided nothing was wrong so far and the diff
      carries an integration commit; otherwise the paths are classified one by one. */
  method PlanChange(p: Policy, bundles: seq<Bundle>, catalog: set<Gate>, entries: seq<Entry>, initial: seq<string>,
                    integrated: bool)
    returns (plan: Plan)
    ensures plan.gates <= catalog
    ensures Resolved(plan) <==> initial == [] && Resolvable(p, bundles, catalog, entries, integrated)
    ensures initial == [] && entries != [] ==> PlannedFor(p, bundles, catalog, entries, integrated, plan)
    ensures initial != [] || entries == [] ==>
      plan.gates == GatesOf(p, entries) * catalog && plan.checks == ChecksOf(p, entries)
  {
    if initial == [] && entries != [] && integrated {
      var first := FindBundle(bundles, entries);
      if first.Some? { return BundlePlan(bundles[first.value], catalog); }
    }
    plan := PlanByPath(p, catalog, entries, initial);
  }

  method FindBundle(bundles: seq<Bundle>, entries: seq<Entry>) returns (r: Option<nat>)
    ensures r == FirstApplicable(bundles, entries, 0)
  {
    for i := 0 to |bundles|
      invariant FirstApplicable(bundles, entries, 0) == FirstApplicable(bundles, entries, i)
    {
      if Applies(bundles[i], entries) { return Some(i); }
    }
    return None;
  }

  /** A bundle applies exactly if its head is trusted and it describes the change completely: the same paths,
      each changed once and with the reviewed status, nothing besides, and no rename or copy unless it is
      compared path by path. */
  lemma AppliesExactly(b: Bundle, entries: seq<Entry>)
    ensures Applies(b, entries) <==>
      && b.trusted == true && DistinctPaths(entries) && Paths(entries) == b.files.Keys
      && (forall i :: 0 <= i < |entries| ==> b.files[entries[i].path] == entries[i].status)
      && (b.byPath == true
          || forall i :: 0 <= i < |entries| ==> entries[i].status != "renamed" && entries[i].status != "copied")
  {
    if Applies(b, entries) { BundleIsExact(b, entries); }
    if DistinctPaths(entries) && Paths(entries) == b.files.Keys
       && forall i :: 0 <= i < |entries| ==> b.files[entries[i].path] == entries[i].status {
      DistinctPathsCount(entries);
      assert |b.files| == |b.files.Keys|;
      forall path | path in b.files ensures StatusOf(entries)[path] == b.files[path] {
        var i :| 0 <= i < |entries| && entries[i].path == path;
        StatusOfDistinct(entries, i);
      }
      assert StatusOf(entries) == b.files;
    }
  }

  lemma {:induction false} DistinctPathsCount(entries: seq<Entry>)
    requires DistinctPaths(entries)
    ensures |Paths(entries)| == |entries|
  {
    if entries != [] {
      var n := |entries| - 1;
      assert forall i :: 0 <= i < n ==> entries[..n][i] == entries[i];
      DistinctPathsCount(entries[..n]);
      PathsSplit(entries, n);
      assert entries[n].path !in Paths(entries[..n]);
    }
  }

  /** An applicable bundle describes the change completely: the same paths, each changed once and
      with the reviewed status, and nothing besides. */
  lemma BundleIsExact(b: Bundle, entries: seq<Entry>)
    requires Applies(b, entries)
    ensures DistinctPaths(entries) && Paths(entries) == b.files.Keys
    ensures forall i :: 0 <= i < |entries| ==> b.files[entries[i].path] == entries[i].status
    ensures b.byPath || NoMove(entries)
  {
    FewPathsWhenRepeated(entries);
    assert |Paths(entries)| == |b.files.Keys| == |b.files|;
    forall i | 0 <= i < |entries|
      ensures entries[i].path in b.files && b.files[entries[i].path] == entries[i].status
    {
      StatusOfDistinct(entries, i);
    }
  }

  lemma PathsSplit(entries: seq<Entry>, n: nat)
    requires n + 1 == |entries|
    ensures Paths(entries) == Paths(entries[..n]) + {entries[n].path}
  {
    assert forall i :: 0 <= i < n ==> entries[..n][i] == entries[i];
  }

  lemma DistinctExtends(entries: seq<Entry>, n: nat)
    requires n + 1 == |entries| && DistinctPaths(entries[..n]) && entries[n].path !in Paths(entries[..n])
    ensures DistinctPaths(entries)
  {
    var front := entries[..n];
    forall i | 0 <= i < n ensures entries[i].path != entries[n].path { assert front[i].path in Paths(front); }
    forall i, j | 0 <= i < n && 0 <= j < n && entries[i].path == entries[j].path ensures i == j {
      assert front[i].path == front[j].path;
    }
  }

  /** As many paths as entries means no path occurs twice. */
  lemma {:induction false} FewPathsWhenRepeated(entries: seq<Entry>)
    ensures |Paths(entries)| <= |entries|
    ensures |Paths(entries)| == |entries| ==> DistinctPaths(entries)
  {
    if entries != [] {
      var n := |entries| - 1;
      FewPathsWhenRepeated(entries[..n]);
      PathsSplit(entries, n);
      if entries[n].path in Paths(entries[..n]) {
        assert Paths(entries) == Paths(entries[..n]);
      } else if |Paths(entries)| == |entries| {
        DistinctExtends(entries, n);
      }
    }
  }

  /** A bundle never applies to a smaller change than its own. */
  lemma BundleNeedsAllItsFiles(b: Bundle, entries: seq<Entry>, part: seq<Entry>)
    requires Applies(b, entries) && |part| < |entries|
    ensures !Applies(b, part)
  {
  }

  /** What it takes for one path to be classified without a problem. */
  predicate Settles(p: Policy, path: Path, status: Status, all: set<Path>)
  {
    var first, early := p.first(path, status), p.early(path, status);
    || (first.Some? && first.value.problems == [])
    || (&& first.None? && path != p.qualified
        && ((early.Some? && early.value.problems == [])
            || (early.None? && CommandTest(path) && TestOnlyChange(p, all))
            || (early.None? && !CommandSource(path) && p.late(path, status).problems == [])))
  }

  /** The qualified path never settles by itself, and a command source only if an earlier branch claims
      it or the whole change is tests. */
  lemma SettlesExactly(p: Policy, path: Path, status: Status, all: set<Path>, alone: bool)
    ensures Classify(p, path, status, all, alone).problems == [] <==> Settles(p, path, status, all)
  {
    if CommandTest(path) { CommandTestIsSource(path); }
  }

  predicate EachSettles(p: Policy, entries: seq<Entry>)
  {
    forall i :: 0 <= i < |entries| ==> Settles(p, entries[i].path, entries[i].status, Paths(entries))
  }

  lemma CleanExactly(p: Policy, catalog: set<Gate>, entries: seq<Entry>)
    requires entries != [] && DistinctPaths(entries)
    ensures Clean(p, catalog, entries) <==> EachSettles(p, entries) && GatesOf(p, entries) <= catalog
  {
    forall i | 0 <= i < |entries|
      ensures ImpactAt(p, entries, i).problems == []
         <==> Settles(p, entries[i].path, entries[i].status, Paths(entries))
    {
      StatusOfDistinct(entries, i);
      SettlesExactly(p, entries[i].path, entries[i].status, Paths(entries), |entries| == 1);
    }
  }

  /** When a smaller change than the one a bundle resolves is resolved: the bundle no longer helps, so
      another one has to describe it exactly, or each of its paths has to settle by itself. */
  lemma PartOfBundleResolvedExactly(p: Policy, bundles: seq<Bundle>, catalog: set<Gate>,
                                    entries: seq<Entry>, part: seq<Entry>, i: nat)
    requires Deciding(bundles, entries, true) == Some(i)
    requires part != [] && |part| < |entries| && DistinctPaths(part)
    ensures Resolvable(p, bundles, catalog, part, true) <==>
      match Deciding(bundles, part, true)
      case Some(j) => j != i && bundles[j].gates <= catalog
      case None => EachSettles(p, part) && GatesOf(p, part) <= catalog
  {
    BundleNeedsAllItsFiles(bundles[i], entries, part);
    CleanExactly(p, catalog, part);
  }

  lemma LoneCommandSourceIsNotClean(p: Policy, catalog: set<Gate>, a: Path, status: Status)
    requires CommandSource(a) && !CommandTest(a) && a != p.qualified
    requires p.first(a, status).None? && p.early(a, status).None?
    ensures !Clean(p, catalog, [Entry(a, status)])
  {
    var es := [Entry(a, status)];
    StatusOfDistinct(es, 0);
    assert ImpactAt(p, es, 0).problems != [];
  }

  /** A bundle, unlike the classification, is not closed under taking parts: under every policy whose
      earlier branches do not claim a command source, a reviewed change with that file is resolved
      although the file alone is not. */
  lemma PartOfBundleMayBeUnresolved(p: Policy, catalog: set<Gate>, bundle: Bundle, a: Path, b: Path, status: Status)
    requires a != b && CommandSource(a) && !CommandTest(a) && a != p.qualified
    requires p.first(a, status).None? && p.early(a, status).None?
    requires bundle.trusted && bundle.files == map[a := status, b := status] && bundle.gates <= catalog
    requires bundle.byPath || !MoveStatus(status)
    ensures Resolvable(p, [bundle], catalog, [Entry(a, status), Entry(b, status)], true)
    ensures !Resolvable(p, [bundle], catalog, [Entry(a, status)], true)
  {
    var es, part := [Entry(a, status), Entry(b, status)], [Entry(a, status)];
    assert es[..1] == part && part[..0] == [];
    assert StatusOf(part) == map[a := status];
    assert StatusOf(es) == bundle.files;
    assert |bundle.files| == 2 by { assert bundle.files.Keys == {a, b}; }
    assert Applies([bundle][0], es);
    BundleNeedsAllItsFiles(bundle, es, part);
    LoneCommandSourceIsNotClean(p, catalog, a, status);
  }
}
