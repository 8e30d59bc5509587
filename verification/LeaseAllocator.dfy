/** Isolated runner lanes: concurrent prepare and finalize runs share one root directory and one
    capacity lock. Each event below is one indivisible action of one process. */
module LeaseAllocator {
  import opened Wrappers
  import Text

  datatype Runtime = Docker | Podman
  datatype Kind = Container | Network | Volume
  datatype Resource = Resource(runtime: Runtime, kind: Kind, name: string)

  /** The inventory looks at the kinds in this order. */
  function KindAt(k: nat): Kind { if k == 0 then Container else if k == 1 then Network else Volume }

  // ---------- identities and names ----------

  predicate LaneId(id: string) { |id| == 64 && forall i :: 0 <= i < 64 ==> Text.Hex(id[i]) }

  function DirectoryOf(id: string): string
    requires |id| == 64
  {
    "pr-" + id[..24]
  }

  function ResourcePrefix(id: string): string
    requires |id| == 64
  {
    "bh-" + id[..20]
  }

  /** A runtime object belongs to a prefix when it is named so, or so with a dash after it. */
  predicate OwnedName(prefix: string, name: string) { name == prefix || prefix + "-" <= name }

  /** Lanes that own a common object name have the same first 20 digits, so lanes with
      different ones own disjoint names. */
  lemma CommonNameMeansCommonPrefix(a: string, b: string, name: string)
    requires LaneId(a) && LaneId(b)
    requires OwnedName(ResourcePrefix(a), name) && OwnedName(ResourcePrefix(b), name)
    ensures a[..20] == b[..20]
  {
    assert name[..23] == ResourcePrefix(a);
    assert name[..23] == ResourcePrefix(b);
    assert ResourcePrefix(a)[3..] == a[..20];
    assert ResourcePrefix(b)[3..] == b[..20];
  }

  /** The names of a lane's objects: its canonical name, and that name with anything after a dash. */
  ghost predicate NamedFor(id: string, name: string)
    requires LaneId(id)
  {
    name == "bh-" + id[..20] || exists suffix :: name == Suffixed(id, suffix)
  }

  function Suffixed(id: string, suffix: string): string
    requires LaneId(id)
  {
    "bh-" + id[..20] + "-" + suffix
  }

  /** The test of a name finds every object of the lane, not only the canonical one, and no other. */
  lemma OwnedNameExactly(id: string, name: string)
    requires LaneId(id)
    ensures OwnedName(ResourcePrefix(id), name) <==> NamedFor(id, name)
  {
    var start := "bh-" + id[..20] + "-";
    if start <= name { assert name == Suffixed(id, name[|start|..]); }
  }

  /** Some object name belongs to both lanes. */
  ghost predicate ShareAName(a: string, b: string)
    requires LaneId(a) && LaneId(b)
  {
    exists name :: NamedFor(a, name) && NamedFor(b, name)
  }

  /** Two lanes own a common object name exactly if their identities have the same first 20 digits. */
  lemma CommonNameExactly(a: string, b: string)
    requires LaneId(a) && LaneId(b)
    ensures a[..20] == b[..20] <==> ShareAName(a, b)
  {
    if a[..20] == b[..20] { assert NamedFor(a, "bh-" + a[..20]) && NamedFor(b, "bh-" + a[..20]); }
    forall name | NamedFor(a, name) && NamedFor(b, name) ensures a[..20] == b[..20] {
      OwnedNameExactly(a, name);
      OwnedNameExactly(b, name);
      CommonNameMeansCommonPrefix(a, b, name);
    }
  }

  /** Lanes with different directories can own a common object name: identities that first differ
      at one of the digits 21 to 24. */
  lemma DirectoriesDoNotSeparateNames() returns (a: string, b: string)
    ensures LaneId(a) && LaneId(b) && DirectoryOf(a) != DirectoryOf(b)
    ensures a[..20] == b[..20] && ShareAName(a, b)
  {
    a := seq(64, _ => '0');
    b := a[20 := '1'];
    assert DirectoryOf(a)[23] == a[20] && DirectoryOf(b)[23] == b[20];
    assert a[..20] == b[..20];
    CommonNameExactly(a, b);
  }

  // ---------- state ----------

  datatype Lease = Lease(laneId: string, runId: string, attempt: nat, runtime: Runtime)

  /** A lane directory; `maker` is the process that created this very directory. */
  datatype Lane = Lane(maker: nat, lease: Option<Lease>)

  datatype Phase =
    | Start
    | Locked | Counted(n: nat) | Made | Unlocked | Written | Prepared      // prepare
    | Checking(next: nat) | Verified | Holding | Rechecked(maker: nat) | Released   // finalize
    | Failed

  datatype Role = Preparing | Finalizing

  datatype Process = Process(role: Role, lease: Lease, phase: Phase)

  /** `evicted` collects the makers whose lane was removed by some other process. */
  datatype System = System(
    capacity: nat,
    lanes: map<string, Lane>,
    lock: Option<nat>,
    processes: seq<Process>,
    resources: set<Resource>,
    evicted: set<nat>)

  datatype Event =
    | Acquire(p: nat)
    | Count(p: nat)
    | MakeLane(p: nat)
    | Unlock(p: nat)
    | WriteLease(p: nat)
    | Finish(p: nat)
    | Abort(p: nat, complete: bool)
    | Begin(p: nat)
    | Inventory(p: nat, listed: bool)
    | Recheck(p: nat)
    | Remove(p: nat, complete: bool)
    | CreateResource(r: Resource)
    | DestroyResource(r: Resource)

  predicate WellTyped(s: System)
  {
    forall p :: 0 <= p < |s.processes| ==> LaneId(s.processes[p].lease.laneId)
  }

  function Dir(q: Process): string
    requires LaneId(q.lease.laneId)
  {
    DirectoryOf(q.lease.laneId)
  }

  predicate HoldsLock(phase: Phase)
  {
    phase.Locked? || phase.Counted? || phase.Made? || phase.Holding? || phase.Rechecked?
  }

  /** From its first inventory to the release, a finalizer relies on its objects only shrinking. */
  predicate Finalizes(phase: Phase)
  {
    phase.Checking? || phase.Verified? || phase.Holding? || phase.Rechecked?
  }

  predicate Owns(q: Process, r: Resource)
    requires LaneId(q.lease.laneId)
  {
    r.runtime == q.lease.runtime && OwnedName(ResourcePrefix(q.lease.laneId), r.name)
  }

  /** The ownership check shared by `cleanup` and both of its uses in `finalize_cleanup`. */
  predicate LeaseMatches(s: System, q: Process)
    requires LaneId(q.lease.laneId)
  {
    && Dir(q) in s.lanes
    && s.lanes[Dir(q)].lease.Some?
    && var lease := s.lanes[Dir(q)].lease.value;
       lease.laneId == q.lease.laneId && lease.runId == q.lease.runId && lease.attempt == q.lease.attempt
  }

  // ---------- actions ----------

  function SetPhase(s: System, p: nat, phase: Phase): System
    requires p < |s.processes|
  {
    s.(processes := s.processes[p := s.processes[p].(phase := phase)])
  }

  function Leave(s: System, p: nat, phase: Phase): System
    requires p < |s.processes|
  {
    SetPhase(s, p, phase).(lock := None)
  }

  /** `rmtree` of a directory: gone, or left behind without its lease when interrupted. */
  function RemoveTree(s: System, p: nat, dir: string, complete: bool): System
  {
    if dir !in s.lanes then s
    else
      var lane := s.lanes[dir];
      if complete then
        s.(lanes := s.lanes - {dir}, evicted := if lane.maker == p then s.evicted else s.evicted + {lane.maker})
      else s.(lanes := s.lanes[dir := lane.(lease := None)])
  }

  function Step(s: System, e: Event): (t: System)
    requires WellTyped(s)
    ensures WellTyped(t) && |t.processes| == |s.processes| && t.capacity == s.capacity
  {
    match e
    case CreateResource(r) =>
      if exists p :: 0 <= p < |s.processes| && Finalizes(s.processes[p].phase) && Owns(s.processes[p], r) then s
      else s.(resources := s.resources + {r})
    case DestroyResource(r) => s.(resources := s.resources - {r})
    case _ => if e.p < |s.processes| then ProcessStep(s, e, e.p, s.processes[e.p]) else s
  }

  function ProcessStep(s: System, e: Event, p: nat, q: Process): (t: System)
    requires WellTyped(s) && p < |s.processes| && q == s.processes[p]
    ensures WellTyped(t) && |t.processes| == |s.processes| && t.capacity == s.capacity
  {
    match e
    case Acquire(_) =>
      if s.lock.Some? then s
      else if q.role == Preparing && q.phase == Start then SetPhase(s, p, Locked).(lock := Some(p))
      else if q.role == Finalizing && q.phase == Verified then SetPhase(s, p, Holding).(lock := Some(p))
      else s
    case Count(_) =>
      if q.phase != Locked then s
      else if |s.lanes| >= s.capacity then Leave(s, p, Failed)
      else SetPhase(s, p, Counted(|s.lanes|))
    case MakeLane(_) =>
      if !q.phase.Counted? then s
      else if Dir(q) in s.lanes then Leave(s, p, Failed)
      else SetPhase(s, p, Made).(lanes := s.lanes[Dir(q) := Lane(p, None)])
    case Unlock(_) => if q.phase == Made then Leave(s, p, Unlocked) else s
    case WriteLease(_) =>
      if q.phase == Unlocked && Dir(q) in s.lanes && s.lanes[Dir(q)].lease.None? then
        SetPhase(s, p, Written).(lanes := s.lanes[Dir(q) := s.lanes[Dir(q)].(lease := Some(q.lease))])
      else s
    case Finish(_) => if q.phase == Written then SetPhase(s, p, Prepared) else s
    case Abort(_, complete) =>
      if q.phase == Unlocked || q.phase == Written
      then SetPhase(RemoveTree(s, p, Dir(q), complete), p, Failed) else s
    case Begin(_) =>
      if q.role != Finalizing || q.phase != Start then s
      else if !LeaseMatches(s, q) then SetPhase(s, p, Failed)
      else s.(processes := s.processes[p := q.(lease := s.lanes[Dir(q)].lease.value, phase := Checking(0))])
    case Inventory(_, listed) =>
      if !q.phase.Checking? then s
      else if !listed || exists r :: r in s.resources && r.kind == KindAt(q.phase.next) && Owns(q, r)
      then SetPhase(s, p, Failed)
      else SetPhase(s, p, if q.phase.next < 2 then Checking(q.phase.next + 1) else Verified)
    case Recheck(_) =>
      if q.phase != Holding then s
      else if !LeaseMatches(s, q) then Leave(s, p, Failed)
      else SetPhase(s, p, Rechecked(s.lanes[Dir(q)].maker))
    case Remove(_, complete) =>
      if !q.phase.Rechecked? then s
      else Leave(RemoveTree(s, p, Dir(q), complete), p,
                 if Dir(q) in s.lanes && complete then Released else Failed)
    case _ => s
  }

  predicate Initial(s: System)
  {
    && WellTyped(s)
    && |s.lanes| <= s.capacity && s.lock.None? && s.evicted == {}
    && (forall p :: 0 <= p < |s.processes| ==> s.processes[p].phase == Start)
    && (forall d :: d in s.lanes ==> s.lanes[d].maker >= |s.processes|)
  }

  // ---------- the invariant ----------

  /** The lock has at most this one holder, and a counted capacity is still there. */
  predicate SlotAssured(s: System, p: nat)
    requires p < |s.processes|
  {
    var phase := s.processes[p].phase;
    && (HoldsLock(phase) <==> s.lock == Some(p))
    && (phase.Counted? ==> |s.lanes| <= phase.n < s.capacity)
  }

  predicate Unfinished(phase: Phase) { phase.Made? || phase.Unlocked? || phase.Written? }

  /** An unfinished prepare still has the directory it made, unless it was evicted; a finalizer
      about to remove still faces the directory it rechecked. */
  predicate LaneAssured(s: System, p: nat)
    requires WellTyped(s) && p < |s.processes|
  {
    var q := s.processes[p];
    && (Unfinished(q.phase) && p !in s.evicted ==> Dir(q) in s.lanes && s.lanes[Dir(q)].maker == p)
    && (q.phase.Rechecked? && Dir(q) in s.lanes ==> s.lanes[Dir(q)].maker == q.phase.maker)
  }

  /** What the inventory has cleared stays clear. */
  predicate EmptyAssured(s: System, p: nat)
    requires WellTyped(s) && p < |s.processes|
  {
    var q := s.processes[p];
    && (q.phase.Checking? ==> q.phase.next <= 2)
    && (forall r :: r in s.resources && Owns(q, r) ==> !Cleared(q.phase, r.kind))
  }

  /** The inventory has found no object of this kind. */
  predicate Cleared(phase: Phase, kind: Kind)
  {
    || phase.Verified? || phase.Holding? || phase.Rechecked?
    || (phase.Checking? && ((kind == Container && phase.next > 0) || (kind == Network && phase.next > 1)))
  }

  predicate Inv(s: System)
  {
    && WellTyped(s)
    && |s.lanes| <= s.capacity
    && (s.lock.Some? ==> s.lock.value < |s.processes|)
    && (forall p :: 0 <= p < |s.processes| ==> SlotAssured(s, p))
    && (forall p :: 0 <= p < |s.processes| ==> LaneAssured(s, p))
    && (forall p :: 0 <= p < |s.processes| ==> EmptyAssured(s, p))
  }

  function Run(s: System, es: seq<Event>): (t: System)
    requires WellTyped(s)
    ensures WellTyped(t) && |t.processes| == |s.processes| && t.capacity == s.capacity
    decreases |es|
  {
    if es == [] then s else Run(Step(s, es[0]), es[1..])
  }

  lemma RemovalSize<V>(m: map<string, V>, d: string)
    requires d in m
    ensures |m - {d}| == |m| - 1
  {
    assert (m - {d}).Keys == m.Keys - {d};
  }

  lemma RemoveTreeEffects(s: System, p: nat, dir: string, complete: bool)
    ensures var t := RemoveTree(s, p, dir, complete);
            && |t.lanes| <= |s.lanes| && t.lanes.Keys <= s.lanes.Keys
            && s.evicted <= t.evicted && t.processes == s.processes && t.lock == s.lock
            && t.resources == s.resources && t.capacity == s.capacity
            && (forall d :: d in t.lanes ==> t.lanes[d].maker == s.lanes[d].maker)
            && (forall d :: d in s.lanes && d !in t.lanes ==> s.lanes[d].maker == p || s.lanes[d].maker in t.evicted)
  {
    if dir in s.lanes && complete { RemovalSize(s.lanes, dir); }
  }

  predicate Acts(s: System, e: Event)
  {
    !e.CreateResource? && !e.DestroyResource? && e.p < |s.processes|
  }

  lemma ActorOnly(s: System, e: Event, p: nat)
    requires WellTyped(s) && Acts(s, e) && p < |s.processes| && e.p != p
    ensures Step(s, e).processes[p] == s.processes[p]
  {
  }

  lemma ActionEffects(s: System, e: Event)
    requires Inv(s) && Acts(s, e)
    ensures |Step(s, e).lanes| <= |s.lanes| || s.processes[e.p].phase.Counted?
    ensures |Step(s, e).lanes| <= s.capacity
    ensures Step(s, e).lock == s.lock || Step(s, e).lock == None || (s.lock == None && Step(s, e).lock == Some(e.p))
    ensures Step(s, e).lock != s.lock ==> s.lock == None || s.lock == Some(e.p)
    ensures Step(s, e).resources == s.resources && s.evicted <= Step(s, e).evicted
  {
    ActionLocks(s, e);
    ActionLanes(s, e);
  }

  lemma ActionLocks(s: System, e: Event)
    requires Inv(s) && Acts(s, e)
    ensures Step(s, e).lock == s.lock || Step(s, e).lock == None || (s.lock == None && Step(s, e).lock == Some(e.p))
    ensures Step(s, e).lock != s.lock ==> s.lock == None || s.lock == Some(e.p)
    ensures Step(s, e).resources == s.resources
  {
    assert SlotAssured(s, e.p);
  }

  lemma RemovalShrinks(s: System, e: Event)
    requires WellTyped(s) && Acts(s, e) && (e.Abort? || e.Remove?)
    ensures |Step(s, e).lanes| <= |s.lanes| && s.evicted <= Step(s, e).evicted
  {
    RemoveTreeEffects(s, e.p, Dir(s.processes[e.p]), e.complete);
  }

  lemma OthersOnlyMake(s: System, e: Event)
    requires WellTyped(s) && Acts(s, e) && !e.Abort? && !e.Remove?
    ensures Step(s, e).evicted == s.evicted
    ensures |Step(s, e).lanes| <= |s.lanes| || (s.processes[e.p].phase.Counted? && |Step(s, e).lanes| == |s.lanes| + 1)
  {
  }

  lemma ActionLanes(s: System, e: Event)
    requires Inv(s) && Acts(s, e)
    ensures |Step(s, e).lanes| <= |s.lanes| || s.processes[e.p].phase.Counted?
    ensures |Step(s, e).lanes| <= s.capacity
    ensures s.evicted <= Step(s, e).evicted
  {
    if e.Abort? || e.Remove? {
      RemovalShrinks(s, e);
    } else {
      OthersOnlyMake(s, e);
      assert SlotAssured(s, e.p);
    }
  }

  lemma RemovalKeepsSlot(s: System, e: Event)
    requires Inv(s) && Acts(s, e) && (e.Abort? || e.Remove?)
    ensures SlotAssured(Step(s, e), e.p)
  {
    var q := s.processes[e.p];
    assert SlotAssured(s, e.p);
    var removed := RemoveTree(s, e.p, Dir(q), e.complete);
    RemoveTreeEffects(s, e.p, Dir(q), e.complete);
    assert removed.processes == s.processes && removed.lock == s.lock;
  }

  lemma OwnStepKeepsSlot(s: System, e: Event)
    requires Inv(s) && Acts(s, e)
    ensures SlotAssured(Step(s, e), e.p)
  {
    if e.Abort? || e.Remove? {
      RemovalKeepsSlot(s, e);
    } else {
      assert SlotAssured(s, e.p);
    }
  }

  lemma StepKeepsSlot(s: System, e: Event, p: nat)
    requires Inv(s) && Acts(s, e) && p < |s.processes|
    ensures SlotAssured(Step(s, e), p)
  {
    if e.p == p {
      OwnStepKeepsSlot(s, e);
    } else {
      assert SlotAssured(s, p);
      assert SlotAssured(s, e.p);
      ActionEffects(s, e);
      ActorOnly(s, e, p);
    }
  }

  lemma OwnStepKeepsLane(s: System, e: Event, p: nat)
    requires Inv(s) && Acts(s, e) && e.p == p
    ensures LaneAssured(Step(s, e), p)
  {
    assert LaneAssured(s, p);
  }

  /** The directory at `d` changes its maker only by removal or by creation under the lock. */
  predicate LaneChangeOk(s: System, t: System, p: nat, d: string)
    requires p < |s.processes|
  {
    && (d in t.lanes && d !in s.lanes ==> s.processes[p].phase.Counted?)
    && (d in t.lanes && d in s.lanes ==> t.lanes[d].maker == s.lanes[d].maker)
    && (d in s.lanes && d !in t.lanes ==> s.lanes[d].maker == p || s.lanes[d].maker in t.evicted)
  }

  lemma LaneRemoval(s: System, e: Event, d: string)
    requires Inv(s) && Acts(s, e) && (e.Abort? || e.Remove?)
    ensures LaneChangeOk(s, Step(s, e), e.p, d)
  {
    RemoveTreeEffects(s, e.p, Dir(s.processes[e.p]), e.complete);
  }

  lemma LaneChange(s: System, e: Event, d: string)
    requires Inv(s) && Acts(s, e)
    ensures LaneChangeOk(s, Step(s, e), e.p, d)
  {
    if e.Abort? || e.Remove? { LaneRemoval(s, e, d); }
  }

  lemma OtherStepKeepsLane(s: System, e: Event, p: nat)
    requires Inv(s) && Acts(s, e) && p < |s.processes| && e.p != p
    ensures LaneAssured(Step(s, e), p)
  {
    assert LaneAssured(s, p);
    assert SlotAssured(s, p);
    assert SlotAssured(s, e.p);
    ActorOnly(s, e, p);
    ActionEffects(s, e);
    LaneChange(s, e, Dir(s.processes[p]));
  }

  lemma InventoryKeepsEmpty(s: System, e: Event)
    requires Inv(s) && Acts(s, e) && e.Inventory?
    ensures EmptyAssured(Step(s, e), e.p)
  {
    assert EmptyAssured(s, e.p);
  }

  lemma OwnStepKeepsEmpty(s: System, e: Event, p: nat)
    requires Inv(s) && Acts(s, e) && e.p == p
    ensures EmptyAssured(Step(s, e), p)
  {
    if e.Inventory? {
      InventoryKeepsEmpty(s, e);
    } else {
      assert EmptyAssured(s, p);
      ActionLocks(s, e);
    }
  }

  lemma ResourceStepKeepsInv(s: System, e: Event)
    requires Inv(s) && (e.CreateResource? || e.DestroyResource?)
    ensures Inv(Step(s, e))
  {
    var t := Step(s, e);
    forall p | 0 <= p < |s.processes|
      ensures SlotAssured(t, p) && LaneAssured(t, p) && EmptyAssured(t, p)
    {
      assert SlotAssured(s, p);
      assert LaneAssured(s, p);
      assert EmptyAssured(s, p);
    }
  }

  lemma ActionKeepsInv(s: System, e: Event)
    requires Inv(s) && Acts(s, e)
    ensures Inv(Step(s, e))
  {
    var t := Step(s, e);
    ActionEffects(s, e);
    forall p | 0 <= p < |s.processes|
      ensures SlotAssured(t, p)
    {
      StepKeepsSlot(s, e, p);
    }
    forall p | 0 <= p < |s.processes|
      ensures LaneAssured(t, p)
    {
      if e.p == p { OwnStepKeepsLane(s, e, p); } else { OtherStepKeepsLane(s, e, p); }
    }
    forall p | 0 <= p < |s.processes|
      ensures EmptyAssured(t, p)
    {
      if e.p == p { OwnStepKeepsEmpty(s, e, p); } else {
        assert EmptyAssured(s, p);
        ActorOnly(s, e, p);
      }
    }
  }

  lemma StepKeepsInv(s: System, e: Event)
    requires Inv(s)
    ensures Inv(Step(s, e)) && s.evicted <= Step(s, e).evicted
  {
    if e.CreateResource? || e.DestroyResource? {
      ResourceStepKeepsInv(s, e);
    } else if e.p < |s.processes| {
      ActionKeepsInv(s, e);
      ActionEffects(s, e);
    }
  }

  lemma {:induction false} RunKeepsInv(s: System, es: seq<Event>)
    requires Inv(s)
    ensures Inv(Run(s, es)) && s.evicted <= Run(s, es).evicted
    decreases |es|
  {
    if es != [] {
      StepKeepsInv(s, es[0]);
      RunKeepsInv(Step(s, es[0]), es[1..]);
    }
  }

  // ---------- what every run guarantees ----------

  lemma CapacityIsRespected(s: System, es: seq<Event>)
    requires Initial(s)
    ensures |Run(s, es).lanes| <= s.capacity
  {
    RunKeepsInv(s, es);
  }

  lemma ReleaseStep(s: System, e: Event)
    requires WellTyped(s) && Acts(s, e)
    requires s.processes[e.p].phase != Released && Step(s, e).processes[e.p].phase == Released
    ensures e.Remove? && s.processes[e.p].phase.Rechecked?
    ensures Dir(s.processes[e.p]) in s.lanes && Dir(s.processes[e.p]) !in Step(s, e).lanes
  {
  }

  /** A lane is released only when the runtime holds none of its containers, networks and
      volumes, although each kind was inventoried at a different time. */
  lemma ReleasedOnlyWhenEmpty(s: System, es: seq<Event>, e: Event)
    requires Initial(s) && Acts(Run(s, es), e)
    requires var r := Run(s, es);
             r.processes[e.p].phase != Released && Step(r, e).processes[e.p].phase == Released
    ensures var r := Run(s, es); var q := r.processes[e.p];
            && "pr-" + q.lease.laneId[..24] in r.lanes && "pr-" + q.lease.laneId[..24] !in Step(r, e).lanes
            && (forall kind :: Resource(q.lease.runtime, kind, "bh-" + q.lease.laneId[..20]) !in r.resources)
            && (forall kind, suffix ::
                  Resource(q.lease.runtime, kind, Suffixed(q.lease.laneId, suffix)) !in r.resources)
  {
    RunKeepsInv(s, es);
    var r := Run(s, es);
    ReleaseIsEmpty(r, e);
    NothingNamedIsLeft(r.processes[e.p], r.resources);
  }

  lemma NothingNamedIsLeft(q: Process, resources: set<Resource>)
    requires LaneId(q.lease.laneId) && forall x :: x in resources ==> !Owns(q, x)
    ensures forall kind :: Resource(q.lease.runtime, kind, "bh-" + q.lease.laneId[..20]) !in resources
    ensures forall kind, suffix :: Resource(q.lease.runtime, kind, Suffixed(q.lease.laneId, suffix)) !in resources
  {
    forall kind ensures Resource(q.lease.runtime, kind, "bh-" + q.lease.laneId[..20]) !in resources {
      NamedIsOwned(q, kind, "bh-" + q.lease.laneId[..20]);
    }
    forall kind, suffix ensures Resource(q.lease.runtime, kind, Suffixed(q.lease.laneId, suffix)) !in resources {
      NamedIsOwned(q, kind, Suffixed(q.lease.laneId, suffix));
    }
  }

  lemma NamedIsOwned(q: Process, kind: Kind, name: string)
    requires LaneId(q.lease.laneId) && NamedFor(q.lease.laneId, name)
    ensures Owns(q, Resource(q.lease.runtime, kind, name))
  {
    OwnedNameExactly(q.lease.laneId, name);
  }

  /** An inventory of one kind fails exactly if the listing fails or names an object of the lane. */
  lemma InventoryExactly(s: System, p: nat, listed: bool)
    requires WellTyped(s) && p < |s.processes| && s.processes[p].phase.Checking?
    ensures var q := s.processes[p]; var t := Step(s, Inventory(p, listed));
      && (t.processes[p].phase == Failed <==>
            !listed || exists r :: r in s.resources && r.runtime == q.lease.runtime
                                   && r.kind == KindAt(q.phase.next) && NamedFor(q.lease.laneId, r.name))
      && (t.processes[p].phase != Failed ==>
            t.processes[p].phase == if q.phase.next < 2 then Checking(q.phase.next + 1) else Verified)
  {
    var q := s.processes[p];
    var id := q.lease.laneId;
    forall r | r in s.resources ensures OwnedName(ResourcePrefix(id), r.name) <==> NamedFor(id, r.name) {
      OwnedNameExactly(id, r.name);
    }
  }

  // ---------- whose lease a finalizer accepts, and what succeeds ----------

  /** The lane at the process's own name holds a lease with its identity, its run and its attempt. */
  predicate OwnLease(s: System, id: string, runId: string, attempt: nat)
    requires LaneId(id)
  {
    && "pr-" + id[..24] in s.lanes && s.lanes["pr-" + id[..24]].lease.Some?
    && var lease := s.lanes["pr-" + id[..24]].lease.value;
       lease.laneId == id && lease.runId == runId && lease.attempt == attempt
  }

  /** An action fails in exactly these cases; all of them but an interrupted `prepare` or removal leave the
      lanes as they are. */
  lemma FailsExactly(s: System, e: Event)
    requires WellTyped(s) && Acts(s, e) && s.processes[e.p].phase != Failed
    ensures var q := s.processes[e.p];
      Step(s, e).processes[e.p].phase == Failed <==>
        || (e.Count? && q.phase == Locked && |s.lanes| >= s.capacity)
        || (e.MakeLane? && q.phase.Counted? && "pr-" + q.lease.laneId[..24] in s.lanes)
        || (e.Abort? && (q.phase == Unlocked || q.phase == Written))
        || (e.Begin? && q.role == Finalizing && q.phase == Start
            && !OwnLease(s, q.lease.laneId, q.lease.runId, q.lease.attempt))
        || (e.Inventory? && q.phase.Checking?
            && (!e.listed || exists r :: r in s.resources && r.kind == KindAt(q.phase.next) && Owns(q, r)))
        || (e.Recheck? && q.phase == Holding && !OwnLease(s, q.lease.laneId, q.lease.runId, q.lease.attempt))
        || (e.Remove? && q.phase.Rechecked? && !("pr-" + q.lease.laneId[..24] in s.lanes && e.complete))
    ensures Step(s, e).processes[e.p].phase == Failed && !e.Abort? && !e.Remove? ==> Step(s, e).lanes == s.lanes
  {
  }

  /** The lock is taken exactly by a `prepare` that starts or a finalizer that has seen its lane empty, and
      only when it is free. */
  lemma AcquiresExactly(s: System, p: nat)
    requires WellTyped(s) && p < |s.processes|
    ensures var q := s.processes[p]; var t := Step(s, Acquire(p));
      (t.lock == Some(p) && s.lock == None) <==>
        s.lock == None && ((q.role == Preparing && q.phase == Start) || (q.role == Finalizing && q.phase == Verified))
    ensures Step(s, Acquire(p)).lock == s.lock || Step(s, Acquire(p)).lock == Some(p)
  {
  }

  /** A lease is written exactly into a lane of the process's own name that has none yet. */
  lemma WritesLeaseExactly(s: System, p: nat)
    requires WellTyped(s) && p < |s.processes| && s.processes[p].phase == Unlocked
    ensures var q := s.processes[p]; var dir := "pr-" + q.lease.laneId[..24]; var t := Step(s, WriteLease(p));
      && (t.processes[p].phase == Written <==> dir in s.lanes && s.lanes[dir].lease == None)
      && (t.processes[p].phase == Written ==> t.lanes == s.lanes[dir := Lane(s.lanes[dir].maker, Some(q.lease))])
      && (t.processes[p].phase != Written ==> t == s)
  {
  }

  /** A removal takes the lane away; one that is interrupted leaves it behind without its lease. */
  lemma RemovesExactly(s: System, e: Event)
    requires WellTyped(s) && Acts(s, e)
    requires var phase := s.processes[e.p].phase;
      (e.Abort? && (phase == Unlocked || phase == Written)) || (e.Remove? && phase.Rechecked?)
    ensures var dir := "pr-" + s.processes[e.p].lease.laneId[..24];
      Step(s, e).lanes ==
        if dir !in s.lanes then s.lanes
        else if e.complete then s.lanes - {dir}
        else s.lanes[dir := Lane(s.lanes[dir].maker, None)]
  {
  }

  /** Objects come and go freely, except that a lane gets no new ones from its first inventory on. */
  lemma ResourcesExactly(s: System, r: Resource)
    requires WellTyped(s)
    ensures Step(s, DestroyResource(r)).resources == s.resources - {r}
    ensures Step(s, CreateResource(r)).resources ==
      if exists p :: 0 <= p < |s.processes| && Closing(s.processes[p], r) then s.resources else s.resources + {r}
  {
    forall p | 0 <= p < |s.processes|
      ensures Closing(s.processes[p], r) <==> Finalizes(s.processes[p].phase) && Owns(s.processes[p], r)
    {
      OwnedNameExactly(s.processes[p].lease.laneId, r.name);
    }
  }

  /** The process is finalizing the lane that the object is named for. */
  ghost predicate Closing(q: Process, r: Resource)
    requires LaneId(q.lease.laneId)
  {
    && (q.phase.Checking? || q.phase == Verified || q.phase == Holding || q.phase.Rechecked?)
    && r.runtime == q.lease.runtime && NamedFor(q.lease.laneId, r.name)
  }

  /** The process's own recheck in a run, which found its own lease. */
  predicate RechecksAt(s: System, es: seq<Event>, p: nat, k: nat)
    requires WellTyped(s)
  {
    && k < |es| && es[k] == Recheck(p)
    && var before := Run(s, es[..k]);
       && p < |before.processes| && before.processes[p].phase == Holding
       && var lease := before.processes[p].lease;
          OwnLease(before, lease.laneId, lease.runId, lease.attempt) && lease == Run(s, es).processes[p].lease
  }

  /** Whoever is about to remove a lane, or has released one, has found its own lease inside the lock. */
  lemma {:induction false} RemoverFoundOwnLease(s: System, es: seq<Event>, p: nat) returns (k: nat)
    requires Initial(s) && p < |Run(s, es).processes|
    requires Run(s, es).processes[p].phase.Rechecked? || Run(s, es).processes[p].phase == Released
    ensures RechecksAt(s, es, p, k)
    decreases |es|
  {
    assert es != [];
    var front, e := es[..|es| - 1], es[|es| - 1];
    RunLast(s, es);
    var r := Run(s, front);
    if r.processes[p].phase.Rechecked? || r.processes[p].phase == Released {
      k := RemoverFoundOwnLease(s, front, p);
      assert es[..k] == front[..k];
      LeaseStays(r, e, p);
    } else {
      NewlyRechecked(r, e, p);
      k := |es| - 1;
    }
  }

  lemma LeaseStays(s: System, e: Event, p: nat)
    requires WellTyped(s) && p < |s.processes| && (s.processes[p].phase.Rechecked? || s.processes[p].phase == Released)
    ensures Step(s, e).processes[p].lease == s.processes[p].lease
  {
  }

  lemma NewlyRechecked(s: System, e: Event, p: nat)
    requires WellTyped(s) && p < |s.processes|
    requires !s.processes[p].phase.Rechecked? && s.processes[p].phase != Released
    requires Step(s, e).processes[p].phase.Rechecked? || Step(s, e).processes[p].phase == Released
    ensures e == Recheck(p) && s.processes[p].phase == Holding
    ensures Step(s, e).processes[p].lease == s.processes[p].lease
    ensures var lease := s.processes[p].lease; OwnLease(s, lease.laneId, lease.runId, lease.attempt)
  {
  }

  lemma {:induction false} RunLast(s: System, es: seq<Event>)
    requires WellTyped(s) && es != []
    ensures Run(s, es) == Step(Run(s, es[..|es| - 1]), es[|es| - 1])
    decreases |es|
  {
    if |es| > 1 {
      RunLast(Step(s, es[0]), es[1..]);
      assert es[1..][..|es| - 2] == es[..|es| - 1][1..];
    } else {
      assert es[1..] == [] && es[..0] == [];
    }
  }

  /** With a slot free and no lane of its name, an undisturbed `prepare` makes its lane with its lease, and
      touches nothing else. */
  lemma UndisturbedPrepareSucceeds(s: System, p: nat)
    requires WellTyped(s) && p < |s.processes| && s.processes[p].role == Preparing && s.processes[p].phase == Start
    requires s.lock == None && |s.lanes| < s.capacity && "pr-" + s.processes[p].lease.laneId[..24] !in s.lanes
    ensures var q := s.processes[p];
      var counted := Step(Step(s, Acquire(p)), Count(p));
      var made := Step(Step(counted, MakeLane(p)), Unlock(p));
      var t := Step(Step(made, WriteLease(p)), Finish(p));
      && t.processes[p].phase == Prepared && t.lock == None
      && t.lanes == s.lanes["pr-" + q.lease.laneId[..24] := Lane(p, Some(q.lease))]
  {
    var q := s.processes[p];
    UndisturbedMaking(s, p);
    var made := Step(Step(Step(Step(s, Acquire(p)), Count(p)), MakeLane(p)), Unlock(p));
    UndisturbedWriting(made, p);
    var dir := "pr-" + q.lease.laneId[..24];
    assert s.lanes[dir := Lane(p, None)][dir := Lane(p, Some(q.lease))] == s.lanes[dir := Lane(p, Some(q.lease))];
  }

  lemma UndisturbedMaking(s: System, p: nat)
    requires WellTyped(s) && p < |s.processes| && s.processes[p].role == Preparing && s.processes[p].phase == Start
    requires s.lock == None && |s.lanes| < s.capacity && "pr-" + s.processes[p].lease.laneId[..24] !in s.lanes
    ensures var q := s.processes[p];
      var made := Step(Step(Step(Step(s, Acquire(p)), Count(p)), MakeLane(p)), Unlock(p));
      && made.processes[p] == q.(phase := Unlocked) && made.lock == None
      && made.lanes == s.lanes["pr-" + q.lease.laneId[..24] := Lane(p, None)]
  {
  }

  lemma UndisturbedWriting(s: System, p: nat)
    requires WellTyped(s) && p < |s.processes| && s.processes[p].phase == Unlocked
    requires var dir := "pr-" + s.processes[p].lease.laneId[..24]; dir in s.lanes && s.lanes[dir] == Lane(p, None)
    ensures var q := s.processes[p]; var t := Step(Step(s, WriteLease(p)), Finish(p));
      && t.processes[p].phase == Prepared && t.lock == s.lock
      && t.lanes == s.lanes["pr-" + q.lease.laneId[..24] := Lane(p, Some(q.lease))]
  {
  }

  /** With its own lease in place and no object of the lane left, an undisturbed finalizer releases the lane,
      and no other. */
  lemma UndisturbedFinalizeReleases(s: System, p: nat)
    requires WellTyped(s) && p < |s.processes| && s.processes[p].role == Finalizing && s.processes[p].phase == Start
    requires var lease := s.processes[p].lease;
      && OwnLease(s, lease.laneId, lease.runId, lease.attempt) && s.lock == None
      && forall r :: r in s.resources ==> !NamedFor(lease.laneId, r.name)
    ensures var begun := Step(s, Begin(p));
      var checked := Step(Step(Step(begun, Inventory(p, true)), Inventory(p, true)), Inventory(p, true));
      var t := Step(Step(Step(checked, Acquire(p)), Recheck(p)), Remove(p, true));
      && t.processes[p].phase == Released && t.lock == None
      && t.lanes == s.lanes - {"pr-" + s.processes[p].lease.laneId[..24]} && t.resources == s.resources
  {
    var a := Step(s, Begin(p));
    FinalizerBegins(s, p);
    forall r | r in s.resources ensures !Owns(a.processes[p], r) {
      OwnedNameExactly(s.processes[p].lease.laneId, r.name);
    }
    EmptyInventoryPasses(a, p, 0);
    var b := Step(a, Inventory(p, true));
    EmptyInventoryPasses(b, p, 1);
    var c := Step(b, Inventory(p, true));
    EmptyInventoryPasses(c, p, 2);
    VerifiedReleases(Step(c, Inventory(p, true)), p);
  }

  lemma FinalizerBegins(s: System, p: nat)
    requires WellTyped(s) && p < |s.processes| && s.processes[p].role == Finalizing && s.processes[p].phase == Start
    requires var lease := s.processes[p].lease; OwnLease(s, lease.laneId, lease.runId, lease.attempt)
    ensures var t := Step(s, Begin(p)); var lease := s.processes[p].lease;
      && t.processes[p].phase == Checking(0) && t.processes[p].role == Finalizing && t.lanes == s.lanes
      && t.lock == s.lock && t.resources == s.resources
      && t.processes[p].lease == s.lanes["pr-" + lease.laneId[..24]].lease.value
      && t.processes[p].lease.laneId == lease.laneId && t.processes[p].lease.runId == lease.runId
      && t.processes[p].lease.attempt == lease.attempt
  {
  }

  lemma EmptyInventoryPasses(s: System, p: nat, k: nat)
    requires WellTyped(s) && p < |s.processes| && s.processes[p].phase == Checking(k) && k <= 2
    requires forall r :: r in s.resources ==> !Owns(s.processes[p], r)
    ensures Step(s, Inventory(p, true)) == SetPhase(s, p, if k < 2 then Checking(k + 1) else Verified)
  {
  }

  lemma VerifiedReleases(s: System, p: nat)
    requires WellTyped(s) && p < |s.processes| && s.processes[p].role == Finalizing && s.processes[p].phase == Verified
    requires var lease := s.processes[p].lease; OwnLease(s, lease.laneId, lease.runId, lease.attempt)
    requires s.lock == None
    ensures var t := Step(Step(Step(s, Acquire(p)), Recheck(p)), Remove(p, true));
      && t.processes[p].phase == Released && t.lock == None
      && t.lanes == s.lanes - {"pr-" + s.processes[p].lease.laneId[..24]} && t.resources == s.resources
  {
  }

  lemma ReleaseIsEmpty(s: System, e: Event)
    requires Inv(s) && Acts(s, e)
    requires s.processes[e.p].phase != Released && Step(s, e).processes[e.p].phase == Released
    ensures Dir(s.processes[e.p]) in s.lanes && Dir(s.processes[e.p]) !in Step(s, e).lanes
    ensures forall x :: x in s.resources ==> !Owns(s.processes[e.p], x)
  {
    ReleaseStep(s, e);
    RecheckedIsEmpty(s, e.p);
  }

  lemma RecheckedIsEmpty(s: System, p: nat)
    requires Inv(s) && p < |s.processes| && s.processes[p].phase.Rechecked?
    ensures forall x :: x in s.resources ==> !Owns(s.processes[p], x)
  {
    assert EmptyAssured(s, p);
  }

  /** Directory `d` is removed, or loses its lease, in this step. */
  predicate Damages(s: System, e: Event, d: string)
    requires WellTyped(s)
  {
    && d in s.lanes
    && var t := Step(s, e); d !in t.lanes || (s.lanes[d].lease.Some? && t.lanes[d].lease.None?)
  }

  /** Only an aborting prepare or a finalizer damages a directory, only at its own name; a
      finalizer damages the very directory whose lease it has rechecked under the lock, and an
      aborting prepare the very directory it made, exactly as long as it has not been evicted. */
  lemma OnlyOwnLanesAreDamaged(s: System, es: seq<Event>, e: Event, d: string)
    requires Initial(s) && Damages(Run(s, es), e, d)
    ensures var r := Run(s, es);
            && Acts(r, e) && (e.Abort? || e.Remove?) && d == Dir(r.processes[e.p])
            && (e.Remove? ==> r.processes[e.p].phase == Rechecked(r.lanes[d].maker))
            && (e.Abort? ==> (r.lanes[d].maker == e.p <==> e.p !in r.evicted))
  {
    RunKeepsInv(s, es);
    RunKeepsMakers(s, es);
    DamageExactly(Run(s, es), e, d);
  }

  lemma DamageExactly(s: System, e: Event, d: string)
    requires Inv(s) && Makers(s) && Damages(s, e, d)
    ensures Acts(s, e) && (e.Abort? || e.Remove?) && d == Dir(s.processes[e.p])
    ensures e.Remove? ==> s.processes[e.p].phase == Rechecked(s.lanes[d].maker)
    ensures e.Abort? ==> (s.lanes[d].maker == e.p <==> e.p !in s.evicted)
  {
    DamageStep(s, e, d);
    assert MakerKnown(s, d);
  }

  lemma DamageIsARemoval(s: System, e: Event, d: string)
    requires WellTyped(s) && Damages(s, e, d)
    ensures Acts(s, e) && (e.Abort? || e.Remove?) && d == Dir(s.processes[e.p])
    ensures e.Remove? ==> s.processes[e.p].phase.Rechecked?
    ensures e.Abort? ==> Unfinished(s.processes[e.p].phase)
  {
  }

  lemma DamageStep(s: System, e: Event, d: string)
    requires Inv(s) && Damages(s, e, d)
    ensures Acts(s, e) && (e.Abort? || e.Remove?) && d == Dir(s.processes[e.p])
    ensures e.Remove? ==> s.processes[e.p].phase == Rechecked(s.lanes[d].maker)
    ensures e.Abort? ==> s.lanes[d].maker == e.p || e.p in s.evicted
  {
    DamageIsARemoval(s, e, d);
    assert LaneAssured(s, e.p);
  }

  // ---------- who made a lane, and who lost one ----------

  predicate Late(phase: Phase) { phase.Prepared? || phase.Failed? }

  /** The process is past `MakeLane`. */
  predicate HasMade(q: Process) { q.role == Preparing && (Unfinished(q.phase) || Late(q.phase)) }

  /** A lane of a known maker is at that maker's own name, and the maker has not been evicted. */
  predicate MakerKnown(s: System, d: string)
    requires WellTyped(s) && d in s.lanes
  {
    var m := s.lanes[d].maker;
    m < |s.processes| ==> HasMade(s.processes[m]) && Dir(s.processes[m]) == d && m !in s.evicted
  }

  predicate FinalizerPhases(s: System)
  {
    forall p :: 0 <= p < |s.processes| && s.processes[p].role == Finalizing ==>
      Finalizes(s.processes[p].phase) || s.processes[p].phase in {Start, Released, Failed}
  }

  predicate Makers(s: System)
    requires WellTyped(s)
  {
    && FinalizerPhases(s)
    && (forall d :: d in s.lanes ==> MakerKnown(s, d))
    && (forall p :: p in s.evicted && p < |s.processes| ==> HasMade(s.processes[p]))
  }

  /** The lane at `d` goes in this step. */
  predicate Removes(s: System, e: Event, d: string)
    requires WellTyped(s)
  {
    d in s.lanes && d !in Step(s, e).lanes
  }

  /** A process is evicted in exactly the step in which another process removes its lane. */
  ghost predicate Evicts(s: System, e: Event, p: nat)
    requires WellTyped(s)
  {
    exists d :: Removes(s, e, d) && s.lanes[d].maker == p && Acts(s, e) && e.p != p
  }

  lemma RemovalEvicts(s: System, e: Event, p: nat)
    requires WellTyped(s) && Acts(s, e) && (e.Abort? || e.Remove?)
    ensures p in Step(s, e).evicted <==> p in s.evicted || Evicts(s, e, p)
  {
    var d := Dir(s.processes[e.p]);
    if p in Step(s, e).evicted && p !in s.evicted { assert Removes(s, e, d); }
    forall c | Removes(s, e, c) ensures c == d {}
  }

  lemma EvictionStep(s: System, e: Event, p: nat)
    requires WellTyped(s)
    ensures p in Step(s, e).evicted <==> p in s.evicted || Evicts(s, e, p)
  {
    if Acts(s, e) && (e.Abort? || e.Remove?) { RemovalEvicts(s, e, p); }
  }

  lemma NewLanesAreTheirMakers(s: System, e: Event, d: string)
    requires Inv(s) && Acts(s, e) && d !in s.lanes && d in Step(s, e).lanes
    ensures s.processes[e.p].phase.Counted? && d == Dir(s.processes[e.p]) && Step(s, e).lanes[d].maker == e.p
    ensures Step(s, e).processes[e.p].phase == Made && Step(s, e).evicted == s.evicted
  {
  }

  lemma IdentityStays(s: System, e: Event)
    requires WellTyped(s) && Acts(s, e) && s.processes[e.p].role == Preparing
    ensures Step(s, e).processes[e.p].role == Preparing && Dir(Step(s, e).processes[e.p]) == Dir(s.processes[e.p])
  {
    PreparerStays(s, e, e.p, s.processes[e.p]);
  }

  lemma PreparerStays(s: System, e: Event, p: nat, q: Process)
    requires WellTyped(s) && p < |s.processes| && q == s.processes[p] && q.role == Preparing
    ensures ProcessStep(s, e, p, q).processes[p].role == Preparing
    ensures ProcessStep(s, e, p, q).processes[p].lease == q.lease
  {
  }

  lemma MadeStays(s: System, e: Event)
    requires WellTyped(s) && Acts(s, e) && HasMade(s.processes[e.p])
    ensures HasMade(Step(s, e).processes[e.p]) && Dir(Step(s, e).processes[e.p]) == Dir(s.processes[e.p])
  {
    IdentityStays(s, e);
    PhaseStaysMade(s, e);
  }

  lemma PhaseStaysMade(s: System, e: Event)
    requires WellTyped(s) && Acts(s, e) && HasMade(s.processes[e.p])
    ensures var phase := Step(s, e).processes[e.p].phase; Unfinished(phase) || Late(phase)
  {
  }

  lemma EverybodyStaysMade(s: System, e: Event, m: nat)
    requires WellTyped(s) && m < |s.processes| && HasMade(s.processes[m])
    ensures HasMade(Step(s, e).processes[m]) && Dir(Step(s, e).processes[m]) == Dir(s.processes[m])
  {
    if Acts(s, e) {
      if m == e.p { MadeStays(s, e); } else { ActorOnly(s, e, m); }
    }
  }

  /** The eviction of a maker takes its only lane. */
  lemma EvictedLaneIsGone(s: System, e: Event, d: string)
    requires Inv(s) && Makers(s) && d in s.lanes && d in Step(s, e).lanes && s.lanes[d].maker < |s.processes|
    ensures s.lanes[d].maker !in Step(s, e).evicted
  {
    var m := s.lanes[d].maker;
    assert MakerKnown(s, d);
    EvictionStep(s, e, m);
    forall c | Removes(s, e, c) ensures s.lanes[c].maker != m { assert MakerKnown(s, c); }
  }

  lemma StepKeepsMakerKnown(s: System, e: Event, d: string)
    requires Inv(s) && Makers(s) && Acts(s, e) && d in Step(s, e).lanes
    ensures MakerKnown(Step(s, e), d)
  {
    LaneChange(s, e, d);
    if d in s.lanes {
      assert MakerKnown(s, d);
      var m := s.lanes[d].maker;
      if m < |s.processes| {
        EvictedLaneIsGone(s, e, d);
        EverybodyStaysMade(s, e, m);
      }
    } else {
      NewLanesAreTheirMakers(s, e, d);
    }
  }

  lemma StepKeepsFinalizerPhases(s: System, e: Event)
    requires WellTyped(s) && FinalizerPhases(s)
    ensures FinalizerPhases(Step(s, e))
  {
  }

  lemma StepKeepsMakers(s: System, e: Event)
    requires Inv(s) && Makers(s)
    ensures Makers(Step(s, e))
  {
    var t := Step(s, e);
    StepKeepsFinalizerPhases(s, e);
    forall d | d in t.lanes ensures MakerKnown(t, d) {
      if Acts(s, e) { StepKeepsMakerKnown(s, e, d); } else { assert MakerKnown(s, d); }
    }
    forall p | p in t.evicted && p < |t.processes| ensures HasMade(t.processes[p]) {
      EvictionStep(s, e, p);
      if p !in s.evicted {
        var d :| Removes(s, e, d) && s.lanes[d].maker == p;
        assert MakerKnown(s, d);
      }
      EverybodyStaysMade(s, e, p);
    }
  }

  lemma {:induction false} RunKeepsMakers(s: System, es: seq<Event>)
    requires Inv(s) && Makers(s)
    ensures Inv(Run(s, es)) && Makers(Run(s, es))
    decreases |es|
  {
    if es != [] {
      StepKeepsInv(s, es[0]);
      StepKeepsMakers(s, es[0]);
      RunKeepsMakers(Step(s, es[0]), es[1..]);
    }
  }

  /** In every run: an aborting prepare hits its own lane exactly if it has not been evicted. So it
      hits the lane of another process exactly if its own had been removed by somebody else. */
  lemma AbortHitsForeignLaneExactly(s: System, es: seq<Event>, p: nat, complete: bool, d: string)
    requires Initial(s) && Damages(Run(s, es), Abort(p, complete), d)
    ensures Run(s, es).lanes[d].maker == p <==> p !in Run(s, es).evicted
  {
    RunKeepsMakers(s, es);
    DamageStep(Run(s, es), Abort(p, complete), d);
    assert MakerKnown(Run(s, es), d);
  }

  /** Somewhere in the run another process removed the lane that `p` had made. */
  ghost predicate LostItsLane(s: System, es: seq<Event>, p: nat)
    requires WellTyped(s)
    decreases |es|
  {
    es != [] && (Evicts(s, es[0], p) || LostItsLane(Step(s, es[0]), es[1..], p))
  }

  /** Being evicted is a fact about the history: some event of the run removed that lane. */
  lemma {:induction false} EvictedMeansLaneLost(s: System, es: seq<Event>, p: nat)
    requires WellTyped(s)
    ensures p in Run(s, es).evicted <==> p in s.evicted || LostItsLane(s, es, p)
    decreases |es|
  {
    if es != [] {
      EvictionStep(s, es[0], p);
      EvictedMeansLaneLost(Step(s, es[0]), es[1..], p);
    }
  }

  /** The two together: an abort hits a foreign lane exactly after another process removed the lane
      of the aborting one. */
  lemma ForeignAbortExactly(s: System, es: seq<Event>, p: nat, complete: bool, d: string)
    requires Initial(s) && Damages(Run(s, es), Abort(p, complete), d)
    ensures Run(s, es).lanes[d].maker != p <==> LostItsLane(s, es, p)
  {
    AbortHitsForeignLaneExactly(s, es, p, complete, d);
    EvictedMeansLaneLost(s, es, p);
  }

  // ---------- when no identity is finalized while it is being prepared ----------

  /** No finalizer is active at the directory of an unfinished prepare. */
  predicate Sequenced(s: System)
    requires WellTyped(s)
  {
    forall f, p :: 0 <= f < |s.processes| && 0 <= p < |s.processes|
                   && Finalizes(s.processes[f].phase) && Unfinished(s.processes[p].phase)
                   ==> Dir(s.processes[f]) != Dir(s.processes[p])
  }

  predicate SequencedRun(s: System, es: seq<Event>)
    requires WellTyped(s)
    decreases |es|
  {
    Sequenced(s) && (es == [] || SequencedRun(Step(s, es[0]), es[1..]))
  }

  /** Only finished processes have lost their lane to somebody else. */
  predicate EvictedAreLate(s: System)
    requires WellTyped(s)
  {
    Makers(s) && forall p :: p in s.evicted && p < |s.processes| ==> Late(s.processes[p].phase)
  }

  lemma NoEvictionOfUnfinished(s: System, e: Event, p: nat)
    requires Inv(s) && Sequenced(s) && EvictedAreLate(s) && Evicts(s, e, p) && p < |s.processes|
    ensures Late(s.processes[p].phase)
  {
    var d :| Removes(s, e, d) && s.lanes[d].maker == p;
    assert MakerKnown(s, d);
    DamageStep(s, e, d);
  }

  lemma LateStays(s: System, e: Event)
    requires WellTyped(s) && Acts(s, e) && Late(s.processes[e.p].phase)
    ensures Step(s, e).processes[e.p] == s.processes[e.p]
  {
  }

  lemma StepKeepsEvictedLate(s: System, e: Event)
    requires Inv(s) && Sequenced(s) && EvictedAreLate(s)
    ensures EvictedAreLate(Step(s, e))
  {
    var t := Step(s, e);
    StepKeepsMakers(s, e);
    forall p | p in t.evicted && p < |s.processes| ensures Late(t.processes[p].phase) { EvictedIsLate(s, e, p); }
  }

  lemma EvictedIsLate(s: System, e: Event, p: nat)
    requires Inv(s) && Sequenced(s) && EvictedAreLate(s) && p < |s.processes| && p in Step(s, e).evicted
    ensures Late(Step(s, e).processes[p].phase)
  {
    EvictionStep(s, e, p);
    if Evicts(s, e, p) { NoEvictionOfUnfinished(s, e, p); }
    LateStaysLate(s, e, p);
  }

  lemma LateStaysLate(s: System, e: Event, p: nat)
    requires WellTyped(s) && p < |s.processes| && Late(s.processes[p].phase)
    ensures Late(Step(s, e).processes[p].phase)
  {
    if Acts(s, e) {
      if p != e.p { ActorOnly(s, e, p); } else { LateStays(s, e); }
    }
  }

  lemma {:induction false} SequencedRunKeepsEvictedLate(s: System, es: seq<Event>)
    requires Inv(s) && EvictedAreLate(s) && SequencedRun(s, es)
    ensures Inv(Run(s, es)) && Sequenced(Run(s, es)) && EvictedAreLate(Run(s, es))
    decreases |es|
  {
    if es != [] {
      StepKeepsInv(s, es[0]);
      StepKeepsEvictedLate(s, es[0]);
      SequencedRunKeepsEvictedLate(Step(s, es[0]), es[1..]);
    }
  }

  /** If no identity is finalized while a prepare of that directory is unfinished, an aborting
      prepare removes the directory it made itself and nothing else. */
  lemma SequencedAbortsRemoveTheirOwn(s: System, es: seq<Event>, p: nat, complete: bool, d: string)
    requires Initial(s) && SequencedRun(s, es) && Damages(Run(s, es), Abort(p, complete), d)
    ensures Run(s, es).lanes[d].maker == p
  {
    SequencedRunKeepsEvictedLate(s, es);
    AbortHitsForeignLaneExactly(s, es, p, complete, d);
    DamageIsARemoval(Run(s, es), Abort(p, complete), d);
  }

  // ---------- why the sequencing is needed ----------

  /** Two prepares and one finalize of one identity in a root with room for one lane. */
  function Contended(
    id: string, lane: Option<Lane>, lock: Option<nat>, a: Phase, b: Phase, c: Phase, evicted: set<nat>): (s: System)
    requires LaneId(id)
    ensures WellTyped(s)
  {
    var lease := Lease(id, "100", 1, Docker);
    System(1, if lane.None? then map[] else map[DirectoryOf(id) := lane.value], lock,
           [Process(Preparing, lease, a), Process(Finalizing, lease, b), Process(Preparing, lease, c)], {}, evicted)
  }

  /** The first prepare writes its lease, the finalizer releases that lane, and the second
      prepare makes it again. */
  function OvertakingAt(k: nat): Event
  {
    if k == 0 then Acquire(0) else if k == 1 then Count(0) else if k == 2 then MakeLane(0)
    else if k == 3 then Unlock(0) else if k == 4 then WriteLease(0)
    else if k == 5 then Begin(1) else if k < 9 then Inventory(1, true) else if k == 9 then Acquire(1)
    else if k == 10 then Recheck(1) else if k == 11 then Remove(1, true)
    else if k == 12 then Acquire(2) else if k == 13 then Count(2) else if k == 14 then MakeLane(2)
    else Unlock(2)
  }

  predicate Overtaking(es: seq<Event>) { |es| == 16 && forall k :: 0 <= k < |es| ==> es[k] == OvertakingAt(k) }

  function Leased(id: string): Option<Lane> { Some(Lane(0, Some(Lease(id, "100", 1, Docker)))) }

  /** The states of the run: the first prepare, ... */
  function Preparing0(id: string, k: nat): System
    requires LaneId(id)
  {
    var made := Some(Lane(0, None));
    if k == 0 then Contended(id, None, None, Start, Start, Start, {})
    else if k == 1 then Contended(id, None, Some(0), Locked, Start, Start, {})
    else if k == 2 then Contended(id, None, Some(0), Counted(0), Start, Start, {})
    else if k == 3 then Contended(id, made, Some(0), Made, Start, Start, {})
    else if k == 4 then Contended(id, made, None, Unlocked, Start, Start, {})
    else Contended(id, Leased(id), None, Written, Start, Start, {})
  }

  /** ... the finalizer of the lane it has written, ... */
  function Finalizing1(id: string, k: nat): System
    requires LaneId(id)
  {
    if k < 4 then Contended(id, Leased(id), None, Written, if k == 0 then Start else Checking(k - 1), Start, {})
    else if k == 4 then Contended(id, Leased(id), None, Written, Verified, Start, {})
    else if k == 5 then Contended(id, Leased(id), Some(1), Written, Holding, Start, {})
    else if k == 6 then Contended(id, Leased(id), Some(1), Written, Rechecked(0), Start, {})
    else Contended(id, None, None, Written, Released, Start, {0})
  }

  /** ... and the second prepare, which makes the lane anew. */
  function Preparing2(id: string, k: nat): System
    requires LaneId(id)
  {
    var remade := Some(Lane(2, None));
    if k == 0 then Contended(id, None, None, Written, Released, Start, {0})
    else if k == 1 then Contended(id, None, Some(2), Written, Released, Locked, {0})
    else if k == 2 then Contended(id, None, Some(2), Written, Released, Counted(0), {0})
    else if k == 3 then Contended(id, remade, Some(2), Written, Released, Made, {0})
    else Contended(id, remade, None, Written, Released, Unlocked, {0})
  }

  lemma Advance(s: System, es: seq<Event>, k: nat, t: System)
    requires WellTyped(s) && k < |es| && Step(s, es[k]) == t
    ensures Run(s, es[k..]) == Run(t, es[k + 1..])
  {
    assert es[k..][1..] == es[k + 1..];
  }

  lemma FirstPrepareRuns(id: string, k: nat)
    requires LaneId(id) && k < 5
    ensures Step(Preparing0(id, k), OvertakingAt(k)) == Preparing0(id, k + 1)
  {
  }

  lemma FinalizerRuns(id: string, k: nat)
    requires LaneId(id) && k < 7
    ensures Step(Finalizing1(id, k), OvertakingAt(5 + k)) == Finalizing1(id, k + 1)
  {
    assert map[DirectoryOf(id) := Leased(id).value] - {DirectoryOf(id)} == map[];
  }

  lemma SecondPrepareRuns(id: string, k: nat)
    requires LaneId(id) && k < 4
    ensures Step(Preparing2(id, k), OvertakingAt(12 + k)) == Preparing2(id, k + 1)
  {
  }

  lemma FirstPrepareAdvances(id: string, es: seq<Event>, k: nat)
    requires LaneId(id) && Overtaking(es) && k < 5
    ensures Run(Preparing0(id, k), es[k..]) == Run(Preparing0(id, k + 1), es[k + 1..])
  {
    FirstPrepareRuns(id, k);
    Advance(Preparing0(id, k), es, k, Preparing0(id, k + 1));
  }

  lemma {:induction false} FirstPrepareReaches(id: string, es: seq<Event>, j: nat, k: nat)
    requires LaneId(id) && Overtaking(es) && j <= k <= 5
    ensures Run(Preparing0(id, j), es[j..]) == Run(Preparing0(id, k), es[k..])
  {
    if j < k {
      FirstPrepareReaches(id, es, j, k - 1);
      FirstPrepareAdvances(id, es, k - 1);
    }
  }

  lemma FinalizerAdvances(id: string, es: seq<Event>, k: nat)
    requires LaneId(id) && Overtaking(es) && k < 7
    ensures Run(Finalizing1(id, k), es[5 + k..]) == Run(Finalizing1(id, k + 1), es[5 + k + 1..])
  {
    FinalizerRuns(id, k);
    Advance(Finalizing1(id, k), es, 5 + k, Finalizing1(id, k + 1));
  }

  lemma {:induction false} FinalizerReaches(id: string, es: seq<Event>, j: nat, k: nat)
    requires LaneId(id) && Overtaking(es) && j <= k <= 7
    ensures Run(Finalizing1(id, j), es[5 + j..]) == Run(Finalizing1(id, k), es[5 + k..])
  {
    if j < k {
      FinalizerReaches(id, es, j, k - 1);
      FinalizerAdvances(id, es, k - 1);
    }
  }

  lemma SecondPrepareAdvances(id: string, es: seq<Event>, k: nat)
    requires LaneId(id) && Overtaking(es) && k < 4
    ensures Run(Preparing2(id, k), es[12 + k..]) == Run(Preparing2(id, k + 1), es[12 + k + 1..])
  {
    SecondPrepareRuns(id, k);
    Advance(Preparing2(id, k), es, 12 + k, Preparing2(id, k + 1));
  }

  lemma {:induction false} SecondPrepareReaches(id: string, es: seq<Event>, j: nat, k: nat)
    requires LaneId(id) && Overtaking(es) && j <= k <= 4
    ensures Run(Preparing2(id, j), es[12 + j..]) == Run(Preparing2(id, k), es[12 + k..])
  {
    if j < k {
      SecondPrepareReaches(id, es, j, k - 1);
      SecondPrepareAdvances(id, es, k - 1);
    }
  }

  /** If process `p` aborts now, it removes a lane that a different unfinished prepare made. */
  predicate ExposesForeignLane(r: System, p: nat, d: string)
    requires WellTyped(r)
  {
    && d in r.lanes && p != r.lanes[d].maker < |r.processes|
    && Unfinished(r.processes[r.lanes[d].maker].phase)
    && Damages(r, Abort(p, true), d)
  }

  lemma RemadeLaneIsExposed(id: string, i: nat, m: nat)
    requires LaneId(id) && i == 0 && m == 4
    ensures Initial(Preparing0(id, i)) && ExposesForeignLane(Preparing2(id, m), 0, DirectoryOf(id))
  {
  }

  /** Where one part of the run ends the next begins. */
  lemma PartsMeet(id: string, i: nat, k: nat, l: nat)
    requires LaneId(id) && i == 0 && k == 5 && l == 7
    ensures Preparing0(id, k) == Finalizing1(id, i) && Finalizing1(id, l) == Preparing2(id, i)
  {
  }

  lemma OvertakingEnds(id: string, es: seq<Event>, i: nat, k: nat, l: nat, m: nat)
    requires LaneId(id) && Overtaking(es) && i == 0 && k == 5 && l == 7 && m == 4
    ensures Run(Preparing0(id, i), es) == Preparing2(id, m)
  {
    FirstPrepareReaches(id, es, i, k);
    FinalizerReaches(id, es, i, l);
    SecondPrepareReaches(id, es, i, m);
    PartsMeet(id, i, k, l);
    assert es[i..] == es && es[12 + m..] == [];
  }

  /** Without the sequencing an aborting prepare can remove a lane that another process made: three
      processes of one identity start from an empty root, and after these events the abort of the
      first would hit the lane of the third. */
  lemma LateAbortRemovesForeignLane(id: string) returns (s: System, es: seq<Event>)
    requires LaneId(id)
    ensures Initial(s) && s.lanes == map[] && |s.processes| == 3
    ensures ExposesForeignLane(Run(s, es), 0, DirectoryOf(id))
  {
    es := seq(16, k requires 0 <= k => OvertakingAt(k));
    var i, m := 0, 4;
    s := Preparing0(id, i);
    OvertakingEnds(id, es, i, 5, 7, m);
    RemadeLaneIsExposed(id, i, m);
  }
}
