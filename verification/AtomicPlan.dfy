/** The remaining native diagnostics of a release, interleaved over two runtimes. */
module AtomicPlan {
  import opened Wrappers
  import T = Text

  datatype Runtime = Docker | Podman

  datatype Job = Job(runtime: Runtime, gate: string)

  /** A row of the gate catalog; `required` tells whether the release asks for it. */
  datatype Row = Row(id: string, required: bool)

  datatype PlanError = UnsupportedRelease | MalformedGate | MissingLane

  // ---------- the jobs of a catalog ----------

  const PREFIX := "atomic/"

  predicate Considered(row: Row) { row.required && PREFIX <= row.id }

  predicate Malformed(row: Row) { Considered(row) && |T.Split(row.id, '/')| != 3 }

  /** The job a row stands for: a native gate of one of the two runtimes, the guided one excepted. */
  function JobOf(row: Row): Option<Job>
  {
    var parts := T.Split(row.id, '/');
    if !Considered(row) || |parts| != 3 || parts[0] != "atomic" || parts[2] == "guided" then None
    else if parts[1] == "docker" then Some(Job(Docker, parts[2]))
    else if parts[1] == "podman" then Some(Job(Podman, parts[2]))
    else None
  }

  function JobIn(row: Row): seq<Job> { match JobOf(row) case None => [] case Some(j) => [j] }

  /** The jobs of the first `k` rows, in catalog order. */
  function JobsUpTo(rows: seq<Row>, k: nat): seq<Job>
    requires k <= |rows|
  {
    if k == 0 then [] else JobsUpTo(rows, k - 1) + JobIn(rows[k - 1])
  }

  function Jobs(rows: seq<Row>): seq<Job> { JobsUpTo(rows, |rows|) }

  /** The jobs of one runtime among the first `k`, in order. */
  function LaneUpTo(jobs: seq<Job>, r: Runtime, k: nat): seq<Job>
    requires k <= |jobs|
  {
    if k == 0 then []
    else LaneUpTo(jobs, r, k - 1) + (if jobs[k - 1].runtime == r then [jobs[k - 1]] else [])
  }

  function Lane(jobs: seq<Job>, r: Runtime): seq<Job> { LaneUpTo(jobs, r, |jobs|) }

  lemma {:induction false} LaneRuntime(jobs: seq<Job>, r: Runtime, k: nat)
    requires k <= |jobs|
    ensures forall j :: j in LaneUpTo(jobs, r, k) ==> j.runtime == r
  {
    if k > 0 { LaneRuntime(jobs, r, k - 1); }
  }

  lemma {:induction false} LaneOfFront(a: seq<Job>, b: seq<Job>, r: Runtime, k: nat)
    requires k <= |a|
    ensures LaneUpTo(a + b, r, k) == LaneUpTo(a, r, k)
  {
    if k > 0 { LaneOfFront(a, b, r, k - 1); }
  }

  lemma {:induction false} LaneOfBack(a: seq<Job>, b: seq<Job>, r: Runtime, k: nat)
    requires k <= |b|
    ensures LaneUpTo(a + b, r, |a| + k) == Lane(a, r) + LaneUpTo(b, r, k)
  {
    if k == 0 {
      LaneOfFront(a, b, r, |a|);
    } else {
      LaneOfBack(a, b, r, k - 1);
      assert (a + b)[|a| + k - 1] == b[k - 1];
    }
  }

  lemma LaneConcat(a: seq<Job>, b: seq<Job>, r: Runtime)
    ensures Lane(a + b, r) == Lane(a, r) + Lane(b, r)
  {
    LaneOfBack(a, b, r, |b|);
  }

  lemma CountOneMore(s: seq<Job>, x: Job, j: Job)
    ensures multiset(s + [x])[j] == multiset(s)[j] + if x == j then 1 else 0
  {
  }

  lemma {:induction false} LanesCountUpTo(jobs: seq<Job>, j: Job, k: nat)
    requires k <= |jobs|
    ensures multiset(jobs[..k])[j] == multiset(LaneUpTo(jobs, j.runtime, k))[j]
  {
    if k > 0 {
      LanesCountUpTo(jobs, j, k - 1);
      assert jobs[..k] == jobs[..k - 1] + [jobs[k - 1]];
      CountOneMore(jobs[..k - 1], jobs[k - 1], j);
      LaneCountStep(jobs, j, k);
    }
  }

  lemma LaneCountStep(jobs: seq<Job>, j: Job, k: nat)
    requires 0 < k <= |jobs|
    ensures multiset(LaneUpTo(jobs, j.runtime, k))[j]
            == multiset(LaneUpTo(jobs, j.runtime, k - 1))[j] + if jobs[k - 1] == j then 1 else 0
  {
    CountOneMore(LaneUpTo(jobs, j.runtime, k - 1), jobs[k - 1], j);
    assert LaneUpTo(jobs, j.runtime, k - 1) + [] == LaneUpTo(jobs, j.runtime, k - 1);
  }

  /** Two lists with the same lanes are permutations of each other. */
  lemma SameLanesPermute(a: seq<Job>, b: seq<Job>)
    requires forall r :: Lane(a, r) == Lane(b, r)
    ensures multiset(a) == multiset(b)
  {
    assert a[..|a|] == a && b[..|b|] == b;
    forall j ensures multiset(a)[j] == multiset(b)[j] {
      LanesCountUpTo(a, j, |a|);
      LanesCountUpTo(b, j, |b|);
      assert Lane(a, j.runtime) == Lane(b, j.runtime);
    }
  }

  // ---------- interleaving ----------

  function Min(a: nat, b: nat): nat { if a <= b then a else b }

  function Max(a: nat, b: nat): nat { if a <= b then b else a }

  function First(lane: seq<Job>, n: nat): seq<Job> { lane[..Min(n, |lane|)] }

  function Turn(lane: seq<Job>, i: nat): seq<Job> { if i < |lane| then [lane[i]] else [] }

  lemma TurnExtends(lane: seq<Job>, i: nat)
    ensures First(lane, i + 1) == First(lane, i) + Turn(lane, i)
  {
  }

  /** In each round every lane that has one left puts its next job, docker first. */
  function Rounds(docker: seq<Job>, podman: seq<Job>, n: nat): seq<Job>
  {
    if n == 0 then [] else Rounds(docker, podman, n - 1) + Turn(docker, n - 1) + Turn(podman, n - 1)
  }

  function Interleaved(docker: seq<Job>, podman: seq<Job>): seq<Job>
  {
    Rounds(docker, podman, Max(|docker|, |podman|))
  }

  predicate Lanes(docker: seq<Job>, podman: seq<Job>)
  {
    (forall j :: j in docker ==> j.runtime == Docker) && (forall j :: j in podman ==> j.runtime == Podman)
  }

  lemma LaneOfTurn(lane: seq<Job>, i: nat, own: Runtime, r: Runtime)
    requires forall j :: j in lane ==> j.runtime == own
    ensures Lane(Turn(lane, i), r) == if r == own then Turn(lane, i) else []
  {
    if i < |lane| {
      assert lane[i] in lane;
      assert LaneUpTo([lane[i]], r, 0) == [];
    }
  }

  /** The lane of a runtime. */
  function Of(docker: seq<Job>, podman: seq<Job>, r: Runtime): seq<Job> { if r == Docker then docker else podman }

  lemma LaneOfHalfRound(docker: seq<Job>, podman: seq<Job>, n: nat, r: Runtime)
    requires Lanes(docker, podman)
    ensures Lane(Rounds(docker, podman, n) + Turn(docker, n), r) ==
            Lane(Rounds(docker, podman, n), r) + if r == Docker then Turn(docker, n) else []
  {
    LaneConcat(Rounds(docker, podman, n), Turn(docker, n), r);
    LaneOfTurn(docker, n, Docker, r);
  }

  lemma LaneOfRound(docker: seq<Job>, podman: seq<Job>, n: nat, r: Runtime)
    requires Lanes(docker, podman)
    ensures Lane(Rounds(docker, podman, n + 1), r)
            == Lane(Rounds(docker, podman, n), r) + Turn(Of(docker, podman, r), n)
  {
    var half := Rounds(docker, podman, n) + Turn(docker, n);
    assert Rounds(docker, podman, n + 1) == half + Turn(podman, n);
    LaneOfHalfRound(docker, podman, n, r);
    LaneConcat(half, Turn(podman, n), r);
    LaneOfTurn(podman, n, Podman, r);
    assert Lane(half, r) + [] == Lane(half, r);
  }

  /** After `n` rounds each lane has given its first `n` jobs, in order. */
  lemma {:induction false} RoundsKeepLanes(docker: seq<Job>, podman: seq<Job>, n: nat, r: Runtime)
    requires Lanes(docker, podman)
    ensures Lane(Rounds(docker, podman, n), r) == First(Of(docker, podman, r), n)
  {
    if n > 0 {
      RoundsKeepLanes(docker, podman, n - 1, r);
      LaneOfRound(docker, podman, n - 1, r);
      TurnExtends(Of(docker, podman, r), n - 1);
    }
  }

  /** What a prefix owes: docker leads by at most one, unless a lane is exhausted. */
  predicate Balanced(docker: nat, podman: nat, d: nat, p: nat)
  {
    d <= docker && p <= podman && (p <= d <= p + 1 || (p == podman && p < d) || (d == docker && d < p))
  }

  predicate BalancedAt(docker: nat, podman: nat, s: seq<Job>, k: nat)
    requires k <= |s|
  {
    Balanced(docker, podman, |LaneUpTo(s, Docker, k)|, |LaneUpTo(s, Podman, k)|)
  }

  lemma AfterRounds(docker: seq<Job>, podman: seq<Job>, n: nat)
    requires Lanes(docker, podman)
    ensures BalancedAt(|docker|, |podman|, Rounds(docker, podman, n), |Rounds(docker, podman, n)|)
  {
    RoundsKeepLanes(docker, podman, n, Docker);
    RoundsKeepLanes(docker, podman, n, Podman);
  }

  lemma WithinRound(docker: seq<Job>, podman: seq<Job>, n: nat)
    requires Lanes(docker, podman)
    ensures var s := Rounds(docker, podman, n) + Turn(docker, n); BalancedAt(|docker|, |podman|, s, |s|)
  {
    RoundsKeepLanes(docker, podman, n, Docker);
    RoundsKeepLanes(docker, podman, n, Podman);
    LaneOfHalfRound(docker, podman, n, Docker);
    LaneOfHalfRound(docker, podman, n, Podman);
  }

  lemma FrontBalanced(docker: nat, podman: nat, a: seq<Job>, b: seq<Job>, k: nat)
    requires k <= |a| && BalancedAt(docker, podman, a, k)
    ensures BalancedAt(docker, podman, a + b, k)
  {
    LaneOfFront(a, b, Docker, k);
    LaneOfFront(a, b, Podman, k);
  }

  lemma {:induction false} PrefixesAreBalanced(docker: seq<Job>, podman: seq<Job>, n: nat, k: nat)
    requires Lanes(docker, podman) && k <= |Rounds(docker, podman, n)|
    ensures BalancedAt(|docker|, |podman|, Rounds(docker, podman, n), k)
  {
    if k == |Rounds(docker, podman, n)| {
      AfterRounds(docker, podman, n);
    } else {
      var before, d, p := Rounds(docker, podman, n - 1), Turn(docker, n - 1), Turn(podman, n - 1);
      if k <= |before| {
        PrefixesAreBalanced(docker, podman, n - 1, k);
        FrontBalanced(|docker|, |podman|, before, d, k);
      } else {
        WithinRound(docker, podman, n - 1);
      }
      FrontBalanced(|docker|, |podman|, before + d, p, k);
    }
  }

  /** The plan is one fair arrangement of exactly these jobs. */
  ghost predicate FairArrangement(jobs: seq<Job>, plan: seq<Job>)
  {
    && (forall r :: Lane(plan, r) == Lane(jobs, r))
    && multiset(plan) == multiset(jobs)
    && (forall k :: 0 <= k <= |plan| ==> BalancedAt(|Lane(jobs, Docker)|, |Lane(jobs, Podman)|, plan, k))
  }

  lemma InterleavedKeepsLanes(docker: seq<Job>, podman: seq<Job>, r: Runtime)
    requires Lanes(docker, podman)
    ensures Lane(Interleaved(docker, podman), r) == Of(docker, podman, r)
  {
    RoundsKeepLanes(docker, podman, Max(|docker|, |podman|), r);
  }

  lemma InterleavedIsFair(jobs: seq<Job>)
    ensures FairArrangement(jobs, Interleaved(Lane(jobs, Docker), Lane(jobs, Podman)))
  {
    var docker, podman := Lane(jobs, Docker), Lane(jobs, Podman);
    var plan := Interleaved(docker, podman);
    LaneRuntime(jobs, Docker, |jobs|);
    LaneRuntime(jobs, Podman, |jobs|);
    forall r ensures Lane(plan, r) == Lane(jobs, r) {
      InterleavedKeepsLanes(docker, podman, r);
      assert r == Docker || r == Podman;
    }
    SameLanesPermute(plan, jobs);
    forall k | 0 <= k <= |plan| ensures BalancedAt(|docker|, |podman|, plan, k) {
      PrefixesAreBalanced(docker, podman, Max(|docker|, |podman|), k);
    }
  }

  // ---------- there is only one fair arrangement ----------

  lemma {:induction false} LaneGrows(s: seq<Job>, r: Runtime, i: nat, k: nat)
    requires i <= k <= |s|
    ensures LaneUpTo(s, r, i) <= LaneUpTo(s, r, k)
  {
    if i < k { LaneGrows(s, r, i, k - 1); }
  }

  lemma {:induction false} LengthsAdd(s: seq<Job>, k: nat)
    requires k <= |s|
    ensures k == |LaneUpTo(s, Docker, k)| + |LaneUpTo(s, Podman, k)|
  {
    if k > 0 { LengthsAdd(s, k - 1); }
  }

  /** The job at `i` is the next one of its lane. */
  lemma NextOfLane(s: seq<Job>, i: nat)
    requires i < |s|
    ensures var r := s[i].runtime;
      |LaneUpTo(s, r, i)| < |Lane(s, r)| && s[i] == Lane(s, r)[|LaneUpTo(s, r, i)|]
      && |LaneUpTo(s, r, i + 1)| == |LaneUpTo(s, r, i)| + 1
  {
    var r := s[i].runtime;
    LaneGrows(s, r, i + 1, |s|);
    assert LaneUpTo(s, r, i + 1) == LaneUpTo(s, r, i) + [s[i]];
  }

  /** Balance leaves no choice of how many docker jobs a prefix of given length has. */
  lemma BalanceIsForced(docker: nat, podman: nat, d: nat, p: nat, e: nat, q: nat)
    requires Balanced(docker, podman, d, p) && Balanced(docker, podman, e, q) && d + p == e + q
    ensures d == e && p == q
  {
  }

  predicate SameCountsAt(a: seq<Job>, b: seq<Job>, k: nat)
    requires k <= |a| && k <= |b|
  {
    |LaneUpTo(a, Docker, k)| == |LaneUpTo(b, Docker, k)| && |LaneUpTo(a, Podman, k)| == |LaneUpTo(b, Podman, k)|
  }

  lemma SameCounts(docker: nat, podman: nat, a: seq<Job>, b: seq<Job>, k: nat)
    requires k <= |a| && k <= |b| && BalancedAt(docker, podman, a, k) && BalancedAt(docker, podman, b, k)
    ensures SameCountsAt(a, b, k)
  {
    LengthsAdd(a, k);
    LengthsAdd(b, k);
    BalanceIsForced(docker, podman, |LaneUpTo(a, Docker, k)|, |LaneUpTo(a, Podman, k)|,
                    |LaneUpTo(b, Docker, k)|, |LaneUpTo(b, Podman, k)|);
  }

  lemma SameJobAt(a: seq<Job>, b: seq<Job>, i: nat)
    requires i < |a| && i < |b| && SameCountsAt(a, b, i) && SameCountsAt(a, b, i + 1)
    requires forall r :: Lane(a, r) == Lane(b, r)
    ensures a[i] == b[i]
  {
    NextOfLane(a, i);
    NextOfLane(b, i);
    assert LaneUpTo(a, Docker, i + 1) == LaneUpTo(a, Docker, i) <==> a[i].runtime == Podman;
    assert LaneUpTo(b, Docker, i + 1) == LaneUpTo(b, Docker, i) <==> b[i].runtime == Podman;
  }

  /** Fairness determines the plan. */
  lemma FairArrangementIsUnique(jobs: seq<Job>, a: seq<Job>, b: seq<Job>)
    requires FairArrangement(jobs, a) && FairArrangement(jobs, b)
    ensures a == b
  {
    var docker, podman := |Lane(jobs, Docker)|, |Lane(jobs, Podman)|;
    assert |a| == |multiset(a)| == |multiset(b)| == |b|;
    forall i | 0 <= i < |a| ensures a[i] == b[i] {
      SameCounts(docker, podman, a, b, i);
      SameCounts(docker, podman, a, b, i + 1);
      SameJobAt(a, b, i);
    }
  }

  // ---------- rows by name ----------

  function RuntimeName(r: Runtime): string { match r case Docker => "docker" case Podman => "podman" }

  /** The row stands for this job: it is required and named after the job's runtime and gate. */
  predicate StandsFor(row: Row, j: Job)
  {
    && row.required && '/' !in j.gate && j.gate != "guided"
    && row.id == "atomic" + "/" + RuntimeName(j.runtime) + "/" + j.gate
  }

  lemma JobOfExactly(row: Row, j: Job)
    ensures JobOf(row) == Some(j) <==> StandsFor(row, j)
  {
    var parts := T.Split(row.id, '/');
    if '/' !in j.gate { T.SplitInThree(row.id, "atomic", RuntimeName(j.runtime), j.gate, '/'); }
    if |parts| == 3 { assert parts == [parts[0], parts[1], parts[2]]; }
  }

  /** Three parts, the first of them fixed. */
  ghost predicate ThreeParts(id: string)
  {
    exists a, b :: '/' !in a && '/' !in b && id == "atomic" + "/" + a + "/" + b
  }

  lemma ParsableExactly(row: Row)
    ensures Parsable(row) <==> (row.required && "atomic/" <= row.id ==> ThreeParts(row.id))
  {
    var parts := T.Split(row.id, '/');
    if "atomic/" <= row.id {
      FirstPart(row.id);
      if |parts| == 3 {
        assert parts == ["atomic", parts[1], parts[2]];
        T.SplitInThree(row.id, "atomic", parts[1], parts[2], '/');
      }
      forall a, b | '/' !in a && '/' !in b && row.id == "atomic" + "/" + a + "/" + b ensures |parts| == 3 {
        T.SplitInThree(row.id, "atomic", a, b, '/');
      }
    }
  }

  lemma FirstPart(id: string)
    requires "atomic/" <= id
    ensures T.Split(id, '/')[0] == "atomic"
  {
    var rest := id[7..];
    assert id == "atomic" + ['/'] + rest;
    T.SplitCons("atomic", rest, '/');
  }

  /** The jobs of a catalog are exactly those that some row stands for. */
  lemma {:induction false} JobsExactly(rows: seq<Row>, k: nat, j: Job)
    requires k <= |rows|
    ensures j in JobsUpTo(rows, k) <==> exists i :: 0 <= i < k && StandsFor(rows[i], j)
  {
    if k > 0 {
      JobsExactly(rows, k - 1, j);
      JobOfExactly(rows[k - 1], j);
      assert j in JobsUpTo(rows, k) <==> j in JobsUpTo(rows, k - 1) || j in JobIn(rows[k - 1]);
    }
  }

  // ---------- the plan ----------

  predicate Parsable(row: Row) { !Malformed(row) }

  predicate WellFormed(rows: seq<Row>) { forall i :: 0 <= i < |rows| ==> Parsable(rows[i]) }

  lemma {:induction false} EachShorter(good: Row -> bool, rows: seq<Row>, i: nat, k: nat)
    requires i <= k <= |rows| && Each(good, rows, k)
    ensures Each(good, rows, i)
  {
    if i < k { EachShorter(good, rows, i, k - 1); }
  }

  /** `remaining_plan`; the last check asks that no lane is empty. */
  method RemainingPlan(known: bool, rows: seq<Row>) returns (r: Result<seq<Job>, PlanError>)
    ensures r.Ok? <==>
      known && WellFormed(rows) && Lane(Jobs(rows), Docker) != [] && Lane(Jobs(rows), Podman) != []
    ensures r.Ok? ==> FairArrangement(Jobs(rows), r.value)
    ensures r.Ok? ==> forall j :: j in r.value <==> exists i :: 0 <= i < |rows| && StandsFor(rows[i], j)
    ensures r.Err? ==> (r.error == UnsupportedRelease <==> !known)
    ensures r.Err? ==> (r.error == MissingLane <==> known && WellFormed(rows))
  {
    if !known { return Err(UnsupportedRelease); }
    var ok, docker, podman := FillLanes(rows);
    EachTells(Parsable, rows, |rows|);
    if !ok { return Err(MalformedGate); }
    if docker == [] || podman == [] { return Err(MissingLane); }
    InterleavedIsFair(Jobs(rows));
    r := Ok(Interleaved(docker, podman));
    forall j ensures j in r.value <==> exists i :: 0 <= i < |rows| && StandsFor(rows[i], j) {
      JobsExactly(rows, |rows|, j);
      assert j in r.value <==> j in multiset(r.value);
      assert j in Jobs(rows) <==> j in multiset(Jobs(rows));
    }
  }

  lemma LaneOfRow(rows: seq<Row>, i: nat, r: Runtime)
    requires i < |rows|
    ensures Lane(JobsUpTo(rows, i + 1), r) == Lane(JobsUpTo(rows, i), r) + Lane(JobIn(rows[i]), r)
  {
    LaneConcat(JobsUpTo(rows, i), JobIn(rows[i]), r);
  }

  method FillLanes(rows: seq<Row>) returns (ok: bool, docker: seq<Job>, podman: seq<Job>)
    ensures ok <==> Each(Parsable, rows, |rows|)
    ensures ok ==> docker == Lane(Jobs(rows), Docker) && podman == Lane(Jobs(rows), Podman)
  {
    docker, podman := [], [];
    for i := 0 to |rows|
      invariant Each(Parsable, rows, i)
      invariant docker == Lane(JobsUpTo(rows, i), Docker) && podman == Lane(JobsUpTo(rows, i), Podman)
    {
      if !Parsable(rows[i]) {
        if Each(Parsable, rows, |rows|) { EachShorter(Parsable, rows, i + 1, |rows|); }
        return false, [], [];
      }
      LaneOfRow(rows, i, Docker);
      LaneOfRow(rows, i, Podman);
      docker, podman := Append(rows[i], docker, podman);
    }
    ok := true;
  }

  method Append(row: Row, docker: seq<Job>, podman: seq<Job>) returns (d: seq<Job>, p: seq<Job>)
    ensures d == docker + Lane(JobIn(row), Docker) && p == podman + Lane(JobIn(row), Podman)
  {
    d, p := docker, podman;
    match JobOf(row)
    case None =>
    case Some(j) =>
      assert LaneUpTo([j], Docker, 0) == [] && LaneUpTo([j], Podman, 0) == [];
      if j.runtime == Docker { d := d + [j]; } else { p := p + [j]; }
  }
}
