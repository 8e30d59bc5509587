/** From a resolved diff to a plan: the checks in front of the classification, and the whole way
    from git's answers to the plan. Anything that is not proved ends in an unresolved plan. */
module DiffPlanning {
  import opened Wrappers
  import T = Text
  import D = PrDiffBase
  import P = GatePlan
  import M = ReviewedMergeChain
  import opened GitDag

  predicate SafePath(path: string) { path != "" && path[0] != '/' && ".." !in T.Split(path, '/') }

  /** `validated_diff`, on a diff whose fields have their types. */
  predicate ValidDiff(d: D.Diff)
  {
    T.ShaField(d.target) && T.ShaField(d.head) && T.ShaField(d.mergeBase)
      && (d.integration.None? || T.ShaField(d.integration))
  }

  predicate Recognized(c: D.Change)
  {
    c.Moved? || c.status in {"added", "deleted", "modified", "type_changed"}
  }

  /** The entries a change contributes: both paths of a rename or copy, with its status. */
  function EntriesOf(c: D.Change): seq<P.Entry>
  {
    match c
    case Moved(renamed, _, oldPath, newPath) =>
      var status := if renamed then "renamed" else "copied";
      [P.Entry(oldPath, status), P.Entry(newPath, status)]
    case Touched(status, path) => [P.Entry(path, status)]
  }

  predicate SafePaths(c: D.Change)
  {
    forall i :: 0 <= i < |EntriesOf(c)| ==> SafePath(EntriesOf(c)[i].path)
  }

  predicate Plannable(c: D.Change) { Recognized(c) && SafePaths(c) }

  /** Usable paths are relative and have no part that leads upwards. */
  ghost predicate InsidePath(path: string)
  {
    |path| > 0 && path[0] != '/' && !T.PartOf("..", path, '/')
  }

  lemma SafePathExactly(path: string)
    ensures SafePath(path) <==> InsidePath(path)
  {
    T.SplitFindsExactly(path, '/', "..");
  }

  /** Exactly these changes can be planned, and they list these entries. */
  lemma PlannableExactly(c: D.Change)
    ensures Plannable(c) <==>
      match c
      case Moved(_, _, oldPath, newPath) => InsidePath(oldPath) && InsidePath(newPath)
      case Touched(status, path) =>
        && (status == "added" || status == "deleted" || status == "modified" || status == "type_changed")
        && InsidePath(path)
    ensures EntriesOf(c) ==
      match c
      case Moved(true, _, oldPath, newPath) => [P.Entry(oldPath, "renamed"), P.Entry(newPath, "renamed")]
      case Moved(false, _, oldPath, newPath) => [P.Entry(oldPath, "copied"), P.Entry(newPath, "copied")]
      case Touched(status, path) => [P.Entry(path, status)]
  {
    match c
    case Moved(_, _, oldPath, newPath) =>
      SafePathExactly(oldPath);
      SafePathExactly(newPath);
      assert EntriesOf(c)[0].path == oldPath && EntriesOf(c)[1].path == newPath;
    case Touched(_, path) =>
      SafePathExactly(path);
      assert EntriesOf(c)[0].path == path;
  }

  /** A diff can be classified exactly if its commits are named in full and every change can be planned. */
  lemma AdmissibleExactly(d: D.Diff)
    ensures Admissible(d) <==>
      && T.Hex40(d.target) && T.Hex40(d.head) && T.Hex40(d.mergeBase)
      && (d.integration != None ==> T.Hex40(d.integration))
      && d.broadRequired == false && forall k :: 0 <= k < |d.changes| ==> Plannable(d.changes[k])
  {
  }

  /** The entries of the plannable ones among the first `k` changes. */
  function Listed(changes: seq<D.Change>, k: nat): seq<P.Entry>
    requires k <= |changes|
  {
    if k == 0 then []
    else Listed(changes, k - 1) + (if Plannable(changes[k - 1]) then EntriesOf(changes[k - 1]) else [])
  }

  /** A problem for every change that cannot be planned, entries for the others. */
  method Intake(changes: seq<D.Change>) returns (problems: seq<string>, entries: seq<P.Entry>)
    ensures problems == [] <==> Each(Plannable, changes, |changes|)
    ensures entries == Listed(changes, |changes|)
  {
    problems, entries := [], [];
    for i := 0 to |changes|
      invariant problems == [] <==> Each(Plannable, changes, i)
      invariant entries == Listed(changes, i)
    {
      var problem, more := Take(changes[i]);
      problems, entries := problems + problem, entries + more;
    }
  }

  method Take(c: D.Change) returns (problem: seq<string>, entries: seq<P.Entry>)
    ensures problem == [] <==> Plannable(c)
    ensures entries == if Plannable(c) then EntriesOf(c) else []
  {
    if !Recognized(c) { return ["unrecognized change status"], []; }
    if !SafePaths(c) { return ["invalid changed path"], []; }
    return [], EntriesOf(c);
  }

  /** Every entry of every plannable change is listed. */
  lemma {:induction false} ListedCovers(changes: seq<D.Change>, k: nat, i: nat, e: P.Entry)
    requires i < k <= |changes| && Plannable(changes[i]) && e in EntriesOf(changes[i])
    ensures e in Listed(changes, k)
  {
    if i < k - 1 { ListedCovers(changes, k - 1, i, e); }
  }

  predicate AllPlannable(changes: seq<D.Change>) { forall k :: 0 <= k < |changes| ==> Plannable(changes[k]) }

  /** A diff that the classification may look at. */
  predicate Admissible(d: D.Diff) { ValidDiff(d) && !d.broadRequired && AllPlannable(d.changes) }

  /** What a resolved plan has certified about its diff. */
  predicate Vouched(d: D.Diff) { Admissible(d) && d.changes != [] }

  function EntriesOfDiff(d: D.Diff): seq<P.Entry> { Listed(d.changes, |d.changes|) }

  /** The diff is plannable, and a bundle describes it exactly or every path is classified cleanly. */
  predicate Justified(p: P.Policy, bundles: seq<P.Bundle>, catalog: set<P.Gate>, d: D.Diff)
  {
    Vouched(d) && P.Resolvable(p, bundles, catalog, EntriesOfDiff(d), d.integration.Some?)
  }

  /** The checks in front of the classification. */
  method Admit(d: D.Diff) returns (unresolved: seq<string>, entries: seq<P.Entry>)
    ensures unresolved == [] <==> Admissible(d)
    ensures entries == if ValidDiff(d) then EntriesOfDiff(d) else []
  {
    if !ValidDiff(d) { return ["invalid diff-base input"], []; }
    unresolved := [];
    if d.broadRequired { unresolved := ["diff-base requires unresolved coverage"]; }
    var problems, listed := Intake(d.changes);
    EachTells(Plannable, d.changes, |d.changes|);
    unresolved, entries := unresolved + problems, listed;
  }

  /** `plan`, from the decoded diff on: resolved exactly if justified. */
  method PlanDiff(p: P.Policy, bundles: seq<P.Bundle>, catalog: set<P.Gate>, d: D.Diff) returns (plan: P.Plan)
    ensures plan.gates <= catalog
    ensures P.Resolved(plan) <==> Justified(p, bundles, catalog, d)
    ensures P.Resolved(plan) ==> P.PlannedFor(p, bundles, catalog, EntriesOfDiff(d), d.integration.Some?, plan)
  {
    var unresolved, entries := Admit(d);
    plan := P.PlanChange(p, bundles, catalog, entries, unresolved, d.integration.Some?);
  }

  // ---------- trust in reviewed candidates ----------

  /** A reviewed candidate as the planner lists it. A guarded one holds only for the own repository and
      branch, and only if resolving the revisions again gives the same diff. */
  datatype Candidate = Candidate(files: map<P.Path, P.Status>, byPath: bool, guarded: bool, reviewed: string,
                                 checks: set<P.Check>, gates: set<P.Gate>)

  type Commands = (nat, M.Command) -> bool

  /** The walk accepts the head for this candidate, and a guard is satisfied. */
  ghost predicate Trusts(r: M.Repository, target: string, head: string, c: Candidate, works: Commands, confirmed: bool)
  {
    && M.FullLength(target, head, c.reviewed) && M.Reaches(r, target, head, c.reviewed, works)
    && (c.guarded ==> confirmed)
  }

  /** Resolving the revisions of a diff again, by their identifiers, gives the same narrow diff. */
  predicate Reproduced(g: D.Git, d: D.Diff)
  {
    && d.target.Some? && d.head.Some? && D.Given(d.integration) && !d.broadRequired && d.reasons == []
    && OfRevisions(g, d.target.value, d.head.value, d.integration, d)
  }

  /** `ours` tells whether repository and target branch are the expected ones. */
  method Confirm(g: D.Git, d: D.Diff, ours: bool) returns (confirmed: bool)
    ensures confirmed <==> ours && Reproduced(g, d)
  {
    if !ours || d.target.None? || d.head.None? || !D.Given(d.integration) { return false; }
    var again := D.ResolvePrDiff(g, d.target.value, d.head.value, d.integration);
    return again.Ok? && again.value == d && !again.value.broadRequired;
  }

  /** Where full identifiers resolve to themselves, a narrow diff with an integration is always
      reproduced: the guard then only asks for the repository and the branch. */
  lemma SelfResolvingIsReproduced(g: D.Git, targetBase: string, head: string, integration: Option<string>, d: D.Diff)
    requires OfRevisions(g, targetBase, head, integration, d) && !d.broadRequired && D.Given(d.integration)
    requires forall sha :: Some(sha) in [d.target, d.head, d.integration] ==> g.resolve(sha) == Some(sha)
    ensures Reproduced(g, d)
  {
    assert d.target == [d.target, d.head, d.integration][0];
    assert d.head == [d.target, d.head, d.integration][1];
    assert d.integration == [d.target, d.head, d.integration][2];
  }

  ghost predicate Assessed(r: M.Repository, target: string, head: string, candidates: seq<Candidate>,
                           works: seq<Commands>, confirmed: bool, bundles: seq<P.Bundle>)
    requires |works| == |candidates|
  {
    && |bundles| == |candidates|
    && forall k :: 0 <= k < |candidates| ==>
         && bundles[k].files == candidates[k].files && bundles[k].byPath == candidates[k].byPath
         && bundles[k].checks == candidates[k].checks
         && bundles[k].gates == candidates[k].gates
         && (bundles[k].trusted <==> Trusts(r, target, head, candidates[k], works[k], confirmed))
  }

  /** Walks from the head for every candidate. */
  method Assess(r: M.Repository, target: string, head: string, candidates: seq<Candidate>, works: seq<Commands>,
                confirmed: bool)
    returns (bundles: seq<P.Bundle>)
    requires M.Valid(r) && |works| == |candidates|
    ensures Assessed(r, target, head, candidates, works, confirmed, bundles)
  {
    bundles := [];
    for k := 0 to |candidates|
      invariant Assessed(r, target, head, candidates[..k], works[..k], confirmed, bundles)
    {
      var c := candidates[k];
      var trusted := M.Trusted(r, target, head, c.reviewed, works[k]);
      bundles := bundles + [P.Bundle(c.files, c.byPath, trusted && (c.guarded ==> confirmed), c.checks, c.gates)];
    }
    assert candidates[..|candidates|] == candidates && works[..|works|] == works;
  }

  function Identifier(sha: Option<D.Sha>): string { if sha.Some? then sha.value else "" }

  /** The whole way from git's answers to the plan of the two given revisions. It aborts exactly on a
      comparable pair with an empty status in its listing. Otherwise the plan is resolved exactly if
      everything about the pair has been proved, its listing can be planned, and a candidate whose
      head the walk trusts describes it exactly or every path is classified cleanly. */
  method PlanRevision(g: D.Git, r: M.Repository, works: seq<Commands>, p: P.Policy, candidates: seq<Candidate>,
                      catalog: set<P.Gate>, targetBase: string, head: string, integration: Option<string>, ours: bool)
    returns (result: Result<P.Plan, D.Error>, ghost diff: D.Diff, ghost bundles: seq<P.Bundle>)
    requires M.Valid(r) && |works| == |candidates|
    ensures result.Err? <==>
      D.Comparable(g, targetBase, head, integration)
        && D.Listing(g, targetBase, head, integration) == Some(Err(D.EmptyStatus))
    ensures result.Err? ==> result.error == D.EmptyStatus
    ensures result.Ok? ==> OfRevisions(g, targetBase, head, integration, diff)
    ensures result.Ok? ==>
      Assessed(r, Identifier(g.resolve(targetBase)), Identifier(g.resolve(head)), candidates, works,
               ours && Reproduced(g, diff), bundles)
    ensures result.Ok? && g.resolve(targetBase).Some? && g.resolve(head).Some? ==>
      Assessed(r, g.resolve(targetBase).value, g.resolve(head).value, candidates, works,
               ours && Reproduced(g, diff), bundles)
    ensures result.Ok? ==> (P.Resolved(result.value) <==>
      Narrow(g, targetBase, head, integration) && Justified(p, bundles, catalog, diff))
    ensures result.Ok? && P.Resolved(result.value) ==>
      P.PlannedFor(p, bundles, catalog, EntriesOfDiff(diff), diff.integration.Some?, result.value)
  {
    var resolved := D.ResolvePrDiff(g, targetBase, head, integration);
    bundles := [];
    if resolved.Err? {
      diff := D.Diff(None, None, None, None, true, [], []);
      return Err(resolved.error), diff, bundles;
    }
    diff := resolved.value;
    var confirmed := Confirm(g, resolved.value, ours);
    var assessed := Assess(r, Identifier(resolved.value.target), Identifier(resolved.value.head), candidates, works,
                           confirmed);
    var plan := PlanDiff(p, assessed, catalog, resolved.value);
    return Ok(plan), diff, assessed;
  }

  /** Everything about the pair has been proved and its listing parses. */
  predicate Narrow(g: D.Git, targetBase: string, head: string, integration: Option<string>)
  {
    && D.Comparable(g, targetBase, head, integration)
    && D.Listing(g, targetBase, head, integration).Some? && D.Listing(g, targetBase, head, integration).value.Ok?
  }

  /** The diff is that of the two given revisions. */
  predicate OfRevisions(g: D.Git, targetBase: string, head: string, integration: Option<string>, d: D.Diff)
  {
    && d.target == g.resolve(targetBase) && d.head == g.resolve(head) && d.integration == D.ResolveGiven(g, integration)
    && (d.broadRequired <==> !Narrow(g, targetBase, head, integration))
    && (!d.broadRequired ==>
          && d.reasons == [] && d.mergeBase == D.MergeBaseOf(g, targetBase, head)
          && D.Listing(g, targetBase, head, integration) == Some(Ok(d.changes)))
  }

  /** What a plan that a candidate decides has accounted for: every commit reachable from the head is
      reachable from the reviewed commit or from the target, or is a clean merge of trusted history;
      and the change has exactly the reviewed files, each once and with the reviewed status. */
  lemma CandidateAccountsForEverything(r: M.Repository, target: string, head: string, candidates: seq<Candidate>,
                                       works: seq<Commands>, bundles: seq<P.Bundle>, entries: seq<P.Entry>,
                                       integrated: bool, c: Commit, confirmed: bool)
    requires M.Valid(r) && |works| == |candidates|
    requires Assessed(r, target, head, candidates, works, confirmed, bundles)
    requires P.Deciding(bundles, entries, integrated).Some? && head in r.named && Ancestor(c, r.named[head])
    ensures var b := candidates[P.Deciding(bundles, entries, integrated).value];
      && b.reviewed in r.named
      && (Ancestor(c, r.named[b.reviewed])
          || (target in r.named && (Ancestor(c, r.named[target]) || M.TrustedMerge(r, target, c))))
      && P.DistinctPaths(entries) && P.Paths(entries) == b.files.Keys
      && (forall i :: 0 <= i < |entries| ==> b.files[entries[i].path] == entries[i].status)
      && (b.byPath || P.NoMove(entries)) && (b.guarded ==> confirmed)
  {
    var i := P.Deciding(bundles, entries, integrated).value;
    P.BundleIsExact(bundles[i], entries);
    assert Trusts(r, target, head, candidates[i], works[i], confirmed);
    var n: nat :| n < M.MAX_STEPS && M.Chain(r, target, head, candidates[i].reviewed, n) && M.Available(works[i], n);
    M.AcceptedHistory(r, target, head, candidates[i].reviewed, n, c);
  }

  /** In a resolved plan both sides of every rename and copy have been looked at. */
  lemma BothSidesOfAMoveAreListed(d: D.Diff, k: nat)
    requires Vouched(d) && k < |d.changes| && d.changes[k].Moved?
    ensures forall e :: e in EntriesOf(d.changes[k]) ==> e in EntriesOfDiff(d)
    ensures d.changes[k].oldPath in P.Paths(EntriesOfDiff(d)) && d.changes[k].newPath in P.Paths(EntriesOfDiff(d))
  {
    var all, es := EntriesOfDiff(d), EntriesOf(d.changes[k]);
    forall e | e in es ensures e in all && e.path in P.Paths(all) {
      ListedCovers(d.changes, |d.changes|, k, e);
      var i :| 0 <= i < |all| && all[i] == e;
    }
    assert es[0] in es && es[1] in es;
  }
}
