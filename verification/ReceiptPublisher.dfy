/** The publishing loop of one writer, run inside a world where everybody else keeps acting. */
module ReceiptPublisher {
  import opened Wrappers
  import opened GitDag
  import opened ReceiptPublication

  /** Everything an attempt does not control: what the world does before each of its network
      actions, and how those actions turn out. */
  datatype Turn = Turn(
    beforeFetch: seq<Event>, fetchOk: bool,
    beforeDecide: seq<Event>, stamp: nat, fault: Fault,
    beforePush: seq<Event>, delivered: bool, acknowledged: bool)

  /** Events in which writer `i` does not act; its checkout may still be moved by others. */
  predicate Passive(es: seq<Event>, i: nat)
  {
    forall k :: 0 <= k < |es| ==> es[k].ForeignPush? || es[k].Meddle? || es[k].w != i
  }

  predicate PassiveTurn(t: Turn, i: nat)
  {
    Passive(t.beforeFetch, i) && Passive(t.beforeDecide, i) && Passive(t.beforePush, i)
  }

  /** Everything that happens in one turn that is not cut short. */
  function TurnEvents(i: nat, t: Turn): seq<Event>
  {
    t.beforeFetch + [Fetch(i, t.fetchOk)] + t.beforeDecide + [Decide(i, t.stamp, t.fault)]
    + t.beforePush + [Push(i, t.delivered, t.acknowledged)]
  }

  /** Everything that happens in the entry checks and the first `k` turns. */
  function Script(i: nat, turns: seq<Turn>, k: nat): seq<Event>
    requires k <= |turns|
  {
    if k == 0 then [Enter(i)] else Script(i, turns, k - 1) + TurnEvents(i, turns[k - 1])
  }

  lemma {:induction false} ScriptGrows(i: nat, turns: seq<Turn>, j: nat, k: nat)
    requires j <= k <= |turns|
    ensures Script(i, turns, j) <= Script(i, turns, k)
  {
    if j < k { ScriptGrows(i, turns, j, k - 1); }
  }

  function Pushes(es: seq<Event>, i: nat): nat
  {
    if es == [] then 0
    else Pushes(es[..|es| - 1], i) + if es[|es| - 1].Push? && es[|es| - 1].w == i then 1 else 0
  }

  lemma {:induction false} RunAppends(s: System, es: seq<Event>, fs: seq<Event>)
    ensures Run(s, es + fs) == Run(Run(s, es), fs)
    decreases |es|
  {
    if es == [] {
      assert es + fs == fs;
    } else {
      assert (es + fs)[1..] == es[1..] + fs;
      RunAppends(Step(s, es[0]), es[1..], fs);
    }
  }

  lemma RunOne(s: System, es: seq<Event>, e: Event)
    ensures Run(s, es + [e]) == Step(Run(s, es), e)
  {
    RunAppends(s, es, [e]);
    assert [e][1..] == [];
  }

  lemma {:induction false} PassiveKeepsPhase(s: System, es: seq<Event>, i: nat)
    requires i < |s.writers| && Passive(es, i)
    ensures |Run(s, es).writers| == |s.writers|
    ensures var v := Run(s, es).writers[i]; var w := s.writers[i];
            v.phase == w.phase && v.attempt == w.attempt
    decreases |es|
  {
    if es != [] {
      assert es[0].ForeignPush? || es[0].Meddle? || es[0].w != i;
      PassiveKeepsPhase(Step(s, es[0]), es[1..], i);
    }
  }

  lemma {:induction false} PassivePushesNothing(es: seq<Event>, fs: seq<Event>, i: nat)
    requires Passive(fs, i)
    ensures Pushes(es + fs, i) == Pushes(es, i)
    decreases |fs|
  {
    if fs == [] {
      assert es + fs == es;
    } else {
      var last := fs[|fs| - 1];
      assert (es + fs)[..|es + fs| - 1] == es + fs[..|fs| - 1];
      assert last.ForeignPush? || last.Meddle? || last.w != i;
      PassivePushesNothing(es, fs[..|fs| - 1], i);
    }
  }

  predicate PhaseAfter(e: Event, w: Writer, v: Writer)
  {
    match e
    case Enter(_) => w.phase == Committed ==> v.phase == Failed || (v.phase == Looping && v.attempt == 0)
    case Fetch(_, _) => w.phase == Looping ==> v.phase in {Failed, Fetched} && v.attempt == w.attempt
    case Decide(_, _, _) =>
      w.phase == Fetched ==> (v.phase.Returned? || v.phase in {Failed, Pushing}) && v.attempt == w.attempt
    case Push(_, _, _) =>
      w.phase == Pushing ==>
        || v.phase.Returned?
        || (v.attempt == w.attempt + 1
            && v.phase == if v.attempt < MAX_PUSH_RETRIES then Looping else Failed)
    case _ => true
  }

  /** Where each action of a writer can leave its phase and its attempt counter. */
  lemma OwnActionPhases(s: System, i: nat, e: Event)
    requires i < |s.writers|
    requires e.ForeignPush? || e.w == i
    ensures |Step(s, e).writers| == |s.writers|
    ensures PhaseAfter(e, s.writers[i], Step(s, e).writers[i])
  {
  }

  class Planning {
    var state: System
    ghost var start: System
    ghost var events: seq<Event>

    ghost predicate Valid() reads this { state == Run(start, events) }

    constructor (s: System)
      ensures Valid() && state == start == s && events == []
    {
      state, start, events := s, s, [];
    }

    /** One action of writer `i`, recorded, with what it can do to the writer's phase. */
    method Act(i: nat, e: Event)
      requires Valid() && i < |state.writers| && !e.ForeignPush? && e.w == i
      modifies this
      ensures Valid() && start == old(start)
      ensures |state.writers| == |old(state).writers|
      ensures PhaseAfter(e, old(state).writers[i], state.writers[i])
      ensures Pushes(events, i) == Pushes(old(events), i) + if e.Push? then 1 else 0
      ensures events == old(events) + [e]
    {
      OwnActionPhases(state, i, e);
      RunOne(start, events, e);
      assert (events + [e])[..|events|] == events;
      state := Step(state, e);
      events := events + [e];
    }

    method Others(es: seq<Event>, ghost i: nat)
      requires Valid() && Passive(es, i) && i < |state.writers|
      modifies this
      ensures Valid() && start == old(start)
      ensures events == old(events) + es
      ensures |state.writers| == |old(state).writers|
      ensures state.writers[i].phase == old(state).writers[i].phase
      ensures state.writers[i].attempt == old(state).writers[i].attempt
      ensures Pushes(events, i) == Pushes(old(events), i)
    {
      RunAppends(start, events, es);
      PassiveKeepsPhase(state, es, i);
      PassivePushesNothing(events, es, i);
      state := Run(state, es);
      events := events + es;
    }

    /** The world acts, then the writer. */
    method Proceed(i: nat, es: seq<Event>, e: Event)
      requires Valid() && i < |state.writers| && Passive(es, i) && !e.ForeignPush? && e.w == i
      modifies this
      ensures Valid() && start == old(start) && |state.writers| == |old(state).writers|
      ensures PhaseAfter(e, old(state).writers[i], state.writers[i])
      ensures Pushes(events, i) == Pushes(old(events), i) + if e.Push? then 1 else 0
      ensures events == old(events) + (es + [e])
    {
      Others(es, i);
      Act(i, e);
    }

    /** One turn of the loop: fetch, decide, push, with the world acting before each. When it is not
        done, the push was refused and the attempt is used up. What has happened is the turn, up to the
        writer's last action. */
    method Attempt(i: nat, turn: Turn) returns (done: bool, published: Option<Commit>)
      requires Valid() && i < |state.writers| && PassiveTurn(turn, i) && state.writers[i].phase == Looping
      modifies this
      ensures Valid() && start == old(start) && |state.writers| == |old(state).writers|
      ensures old(events) <= events && Pushes(events, i) <= Pushes(old(events), i) + 1
      ensures events <= old(events) + TurnEvents(i, turn)
      ensures done ==> state.writers[i].phase == if published.Some? then Returned(published.value) else Failed
      ensures !done ==>
        && events == old(events) + TurnEvents(i, turn)
        && state.writers[i].attempt == old(state).writers[i].attempt + 1
        && state.writers[i].phase == if state.writers[i].attempt < MAX_PUSH_RETRIES then Looping else Failed
    {
      ghost var base := events;
      ghost var fetch := turn.beforeFetch + [Fetch(i, turn.fetchOk)];
      ghost var decide := turn.beforeDecide + [Decide(i, turn.stamp, turn.fault)];
      ghost var push := turn.beforePush + [Push(i, turn.delivered, turn.acknowledged)];
      TurnInParts(base, i, turn, fetch, decide, push);
      Proceed(i, turn.beforeFetch, Fetch(i, turn.fetchOk));
      if state.writers[i].phase == Failed { return true, None; }
      Proceed(i, turn.beforeDecide, Decide(i, turn.stamp, turn.fault));
      if state.writers[i].phase.Returned? { return true, Some(state.writers[i].phase.commit); }
      if state.writers[i].phase == Failed { return true, None; }
      Proceed(i, turn.beforePush, Push(i, turn.delivered, turn.acknowledged));
      if state.writers[i].phase.Returned? { return true, Some(state.writers[i].phase.commit); }
      return false, None;
    }

    /** `publish`: after the entry checks, at most three attempts, each fetching, deciding and
        pushing. Whatever the world does in between, the outcome is the writer's phase, the whole
        execution is a run of the system, what has happened is the script of these turns up to the
        writer's last action, and the writer has pushed at most three times. */
    method Publish(i: nat, turns: seq<Turn>) returns (published: Option<Commit>)
      requires Valid() && Addresses(state, i, Committed)
      requires |turns| == MAX_PUSH_RETRIES && forall k :: 0 <= k < |turns| ==> PassiveTurn(turns[k], i)
      modifies this
      ensures Valid() && start == old(start) && |state.writers| == |old(state).writers|
      ensures state.writers[i].phase == if published.Some? then Returned(published.value) else Failed
      ensures old(events) <= events && Pushes(events, i) <= Pushes(old(events), i) + MAX_PUSH_RETRIES
      ensures events <= old(events) + Script(i, turns, |turns|)
      ensures published == OutcomeOf(Run(old(state), Script(i, turns, |turns|)), i)
      ensures (exists n: nat :: Favourable(old(state), i, turns, n)) ==> published.Some?
    {
      published := PublishInTurns(i, turns);
      OutcomeOfPrefix(start, old(events), events, Script(i, turns, |turns|), i);
      if n: nat :| Favourable(old(state), i, turns, n) { FavourableScriptPublishes(old(state), i, turns, n); }
    }

    method PublishInTurns(i: nat, turns: seq<Turn>) returns (published: Option<Commit>)
      requires Valid() && Addresses(state, i, Committed)
      requires |turns| == MAX_PUSH_RETRIES && forall k :: 0 <= k < |turns| ==> PassiveTurn(turns[k], i)
      modifies this
      ensures Valid() && start == old(start) && |state.writers| == |old(state).writers|
      ensures state.writers[i].phase == if published.Some? then Returned(published.value) else Failed
      ensures old(events) <= events && Pushes(events, i) <= Pushes(old(events), i) + MAX_PUSH_RETRIES
      ensures events <= old(events) + Script(i, turns, |turns|)
    {
      ScriptExtends(events, i, turns, 0);
      Act(i, Enter(i));
      if state.writers[i].phase == Failed { return None; }
      published := Retry(old(events), i, turns);
    }

    /** The loop, entered with nothing but the entry checks since `base`. */
    method Retry(ghost base: seq<Event>, i: nat, turns: seq<Turn>) returns (published: Option<Commit>)
      requires Valid() && i < |state.writers|
      requires |turns| == MAX_PUSH_RETRIES && forall k :: 0 <= k < |turns| ==> PassiveTurn(turns[k], i)
      requires events == base + Script(i, turns, 0) && Pushes(events, i) == Pushes(base, i)
      requires state.writers[i].phase == Looping && state.writers[i].attempt == 0
      modifies this
      ensures Valid() && start == old(start) && |state.writers| == |old(state).writers|
      ensures state.writers[i].phase == if published.Some? then Returned(published.value) else Failed
      ensures base <= events <= base + Script(i, turns, |turns|)
      ensures Pushes(events, i) <= Pushes(base, i) + MAX_PUSH_RETRIES
    {
      for attempt := 0 to MAX_PUSH_RETRIES
        invariant Valid() && start == old(start)
        invariant events == base + Script(i, turns, attempt)
        invariant |state.writers| == |old(state).writers|
        invariant state.writers[i].attempt == attempt
        invariant state.writers[i].phase == if attempt < MAX_PUSH_RETRIES then Looping else Failed
        invariant Pushes(events, i) <= Pushes(base, i) + attempt
      {
        var done, result := NextAttempt(base, i, turns, attempt);
        if done { return result; }
      }
      return None;
    }

    /** The next turn of the script. */
    method NextAttempt(ghost base: seq<Event>, i: nat, turns: seq<Turn>, k: nat)
      returns (done: bool, published: Option<Commit>)
      requires Valid() && i < |state.writers| && state.writers[i].phase == Looping
      requires k < |turns| && PassiveTurn(turns[k], i) && events == base + Script(i, turns, k)
      modifies this
      ensures Valid() && start == old(start) && |state.writers| == |old(state).writers|
      ensures base <= events <= base + Script(i, turns, |turns|)
      ensures Pushes(events, i) <= Pushes(old(events), i) + 1
      ensures done ==> state.writers[i].phase == if published.Some? then Returned(published.value) else Failed
      ensures !done ==>
        && events == base + Script(i, turns, k + 1)
        && state.writers[i].attempt == old(state).writers[i].attempt + 1
        && state.writers[i].phase == if state.writers[i].attempt < MAX_PUSH_RETRIES then Looping else Failed
    {
      ghost var before := events;
      done, published := Attempt(i, turns[k]);
      ScriptContinues(base, before, events, i, turns, k);
    }
  }

  lemma TurnInParts(base: seq<Event>, i: nat, turn: Turn, fetch: seq<Event>, decide: seq<Event>, push: seq<Event>)
    requires fetch == turn.beforeFetch + [Fetch(i, turn.fetchOk)]
    requires decide == turn.beforeDecide + [Decide(i, turn.stamp, turn.fault)]
    requires push == turn.beforePush + [Push(i, turn.delivered, turn.acknowledged)]
    ensures base + fetch <= base + TurnEvents(i, turn)
    ensures base + fetch + decide <= base + TurnEvents(i, turn)
    ensures base + fetch + decide + push == base + TurnEvents(i, turn)
  {
    assert TurnEvents(i, turn) == fetch + decide + push;
  }

  lemma ScriptExtends(base: seq<Event>, i: nat, turns: seq<Turn>, k: nat)
    requires k <= |turns|
    ensures base + Script(i, turns, k) <= base + Script(i, turns, |turns|)
  {
    ScriptGrows(i, turns, k, |turns|);
  }

  /** A part of a turn that follows the script so far stays within the script. */
  lemma ScriptContinues(base: seq<Event>, before: seq<Event>, now: seq<Event>, i: nat, turns: seq<Turn>, k: nat)
    requires k < |turns| && before == base + Script(i, turns, k)
    requires before <= now <= before + TurnEvents(i, turns[k])
    ensures before + TurnEvents(i, turns[k]) == base + Script(i, turns, k + 1)
    ensures base <= now <= base + Script(i, turns, |turns|)
  {
    assert before + TurnEvents(i, turns[k]) == base + (Script(i, turns, k) + TurnEvents(i, turns[k]));
    ScriptExtends(base, i, turns, k + 1);
  }

  // ---------- when the loop publishes ----------

  function OutcomeOf(s: System, i: nat): Option<Commit>
  {
    if i < |s.writers| && s.writers[i].phase.Returned? then Some(s.writers[i].phase.commit) else None
  }

  /** A writer that has returned or failed stays so. */
  lemma {:induction false} EndedStays(s: System, es: seq<Event>, i: nat)
    requires i < |s.writers| && (s.writers[i].phase.Returned? || s.writers[i].phase == Failed)
    ensures |Run(s, es).writers| == |s.writers| && Run(s, es).writers[i].phase == s.writers[i].phase
    decreases |es|
  {
    if es != [] { EndedStays(Step(s, es[0]), es[1..], i); }
  }

  /** What happened up to the writer's end decides what the whole script would have come to. */
  lemma OutcomeOfPrefix(s: System, base: seq<Event>, now: seq<Event>, script: seq<Event>, i: nat)
    requires base <= now <= base + script && i < |Run(s, now).writers|
    requires Run(s, now).writers[i].phase.Returned? || Run(s, now).writers[i].phase == Failed
    ensures OutcomeOf(Run(Run(s, base), script), i) == OutcomeOf(Run(s, now), i)
  {
    var rest := (base + script)[|now|..];
    assert now + rest == base + script;
    RunAppends(s, base, script);
    RunAppends(s, now, rest);
    EndedStays(Run(s, now), rest, i);
  }

  /** The commands of this turn work and nobody touches the writer's checkout; others may push, and the
      writer's own push may be refused or its acknowledgement lost. */
  predicate Works(t: Turn, i: nat)
  {
    && t.fetchOk && t.fault == NoFault
    && ByOthers(t.beforeFetch, i) && ByOthers(t.beforeDecide, i) && ByOthers(t.beforePush, i)
  }

  /** Nobody pushes. */
  predicate Quiet(es: seq<Event>)
  {
    forall k :: 0 <= k < |es| ==> !es[k].ForeignPush? && !es[k].Push?
  }

  /** Besides, nobody pushes from the fetch to the writer's own push, which works. */
  predicate Undisturbed(t: Turn, i: nat)
  {
    Works(t, i) && Quiet(t.beforeDecide) && Quiet(t.beforePush) && t.delivered && t.acknowledged
  }

  /** `main` never holds other bytes under the path. */
  predicate Uncontested(h: seq<Commit>, path: Path, raw: Bytes)
  {
    forall k :: 0 <= k < |h| ==> path in h[k].tree ==> h[k].tree[path] == raw
  }

  /** The writer is prepared, its turns up to the `n`-th work, the `n`-th is undisturbed, and nobody
      publishes other bytes under its path. */
  predicate Favourable(s: System, i: nat, turns: seq<Turn>, n: nat)
  {
    && Inv(s) && Prepared(s, i) && s.writers[i].phase == Committed && n < |turns| == MAX_PUSH_RETRIES
    && (forall k :: 0 <= k <= n ==> Works(turns[k], i)) && Undisturbed(turns[n], i)
    && Uncontested(Run(s, Script(i, turns, |turns|)).history, s.writers[i].path, s.writers[i].raw)
  }

  lemma OthersKeepPrepared(s: System, es: seq<Event>, i: nat)
    requires Inv(s) && Prepared(s, i) && ByOthers(es, i)
    ensures var r := Run(s, es);
      && Inv(r) && Prepared(r, i) && r.writers[i] == s.writers[i] && s.history <= r.history && Ancestor(s.main, r.main)
  {
    RunKeepsInv(s, es);
    OthersLeaveWriterAlone(s, es, i);
    var h := Run(s, es).history;
    HistoryLinks(h, |s.history| - 1, |h| - 1);
    AncestorTransitive(s.writers[i].local.parents[0], s.main, Run(s, es).main);
  }

  lemma {:induction false} QuietKeepsMain(s: System, es: seq<Event>)
    requires Quiet(es)
    ensures Run(s, es).main == s.main
    decreases |es|
  {
    if es != [] { QuietKeepsMain(Step(s, es[0]), es[1..]); }
  }

  // ---------- one turn, state by state ----------

  function BeforeDecide(s: System, i: nat, t: Turn): System
  {
    Run(Step(Run(s, t.beforeFetch), Fetch(i, t.fetchOk)), t.beforeDecide)
  }

  function BeforePush(s: System, i: nat, t: Turn): System
  {
    Run(Step(BeforeDecide(s, i, t), Decide(i, t.stamp, t.fault)), t.beforePush)
  }

  function AfterTurn(s: System, i: nat, t: Turn): System
  {
    Step(BeforePush(s, i, t), Push(i, t.delivered, t.acknowledged))
  }

  lemma TurnIsRun(s: System, i: nat, t: Turn)
    ensures Run(s, TurnEvents(i, t)) == AfterTurn(s, i, t)
  {
    var a := t.beforeFetch;
    var b := a + [Fetch(i, t.fetchOk)];
    var c := b + t.beforeDecide;
    var d := c + [Decide(i, t.stamp, t.fault)];
    var e := d + t.beforePush;
    RunOne(s, a, Fetch(i, t.fetchOk));
    RunAppends(s, b, t.beforeDecide);
    RunOne(s, c, Decide(i, t.stamp, t.fault));
    RunAppends(s, d, t.beforePush);
    RunOne(s, e, Push(i, t.delivered, t.acknowledged));
  }

  lemma TurnGrowsHistory(s: System, i: nat, t: Turn)
    requires Inv(s)
    ensures Inv(BeforeDecide(s, i, t)) && Inv(BeforePush(s, i, t)) && Inv(AfterTurn(s, i, t))
    ensures BeforeDecide(s, i, t).history <= AfterTurn(s, i, t).history
  {
    RunKeepsInv(s, t.beforeFetch);
    StepKeepsInv(Run(s, t.beforeFetch), Fetch(i, t.fetchOk));
    RunKeepsInv(Step(Run(s, t.beforeFetch), Fetch(i, t.fetchOk)), t.beforeDecide);
    StepKeepsInv(BeforeDecide(s, i, t), Decide(i, t.stamp, t.fault));
    RunKeepsInv(Step(BeforeDecide(s, i, t), Decide(i, t.stamp, t.fault)), t.beforePush);
    StepKeepsInv(BeforePush(s, i, t), Push(i, t.delivered, t.acknowledged));
  }

  /** In front of the decision of a turn that works, the fetched commit is one that `main` was. */
  lemma WorksUpToDecide(s: System, i: nat, t: Turn)
    requires Inv(s) && Ready(s, i) && Works(t, i)
    ensures var c := BeforeDecide(s, i, t); var tracking := Run(s, t.beforeFetch).main;
      && Inv(c) && Prepared(c, i) && c.writers[i] == s.writers[i].(tracking := tracking, phase := Fetched)
      && Ancestor(tracking, c.main) && Ancestor(c.writers[i].local.parents[0], tracking) && tracking in c.history
      && (Quiet(t.beforeDecide) ==> c.main == tracking)
  {
    OthersKeepPrepared(s, t.beforeFetch, i);
    var a := Run(s, t.beforeFetch);
    var b := Step(a, Fetch(i, true));
    StepKeepsInv(a, Fetch(i, true));
    assert a.main in b.history;
    OthersKeepPrepared(b, t.beforeDecide, i);
    if Quiet(t.beforeDecide) { QuietKeepsMain(b, t.beforeDecide); }
  }

  /** Where the decision of such a turn leads, up to the writer's own push. */
  lemma WorksUpToPush(s: System, i: nat, t: Turn)
    requires Inv(s) && Ready(s, i) && Works(t, i)
    requires Uncontested(BeforeDecide(s, i, t).history, s.writers[i].path, s.writers[i].raw)
    ensures var e := BeforePush(s, i, t); var w := s.writers[i];
      && Inv(e) && i < |e.writers| && e.writers[i].path == w.path && e.writers[i].raw == w.raw
      && e.writers[i].attempt == w.attempt
      && (e.writers[i].phase.Returned?
          || (e.writers[i].phase == Pushing && Prepared(e, i)
              && (Quiet(t.beforeDecide) && Quiet(t.beforePush) ==> e.writers[i].local.parents == [e.main])))
  {
    WorksUpToDecide(s, i, t);
    var c := BeforeDecide(s, i, t);
    var k :| 0 <= k < |c.history| && c.history[k] == c.writers[i].tracking;
    ReadyDecides(c, i, t.stamp);
    StepKeepsInv(c, Decide(i, t.stamp, t.fault));
    var d := Step(c, Decide(i, t.stamp, t.fault));
    RunKeepsInv(d, t.beforePush);
    OthersLeaveWriterAlone(d, t.beforePush, i);
    if d.writers[i].phase == Pushing { OthersKeepPrepared(d, t.beforePush, i); }
    if Quiet(t.beforePush) { QuietKeepsMain(d, t.beforePush); }
  }

  lemma PushKeepsPrepared(s: System, i: nat, delivered: bool, acknowledged: bool)
    requires Inv(s) && Prepared(s, i) && s.writers[i].phase == Pushing
    ensures var f := Step(s, Push(i, delivered, acknowledged)); var w := s.writers[i];
      && Prepared(f, i) && f.writers[i].path == w.path && f.writers[i].raw == w.raw
      && (f.writers[i].phase.Returned?
          || (f.writers[i].attempt == w.attempt + 1
              && f.writers[i].phase == if w.attempt + 1 < MAX_PUSH_RETRIES then Looping else Failed))
  {
    var w := s.writers[i];
    if Ancestor(s.main, w.local) { assert Ancestor(w.local.parents[0], w.local.parents[0]); }
  }

  /** A turn that works ends in success, or with one attempt fewer and everything in place for the next;
      an undisturbed one ends in success. */
  lemma WorkingTurn(s: System, i: nat, t: Turn)
    requires Inv(s) && Ready(s, i) && Works(t, i)
    requires Uncontested(BeforeDecide(s, i, t).history, s.writers[i].path, s.writers[i].raw)
    ensures var f := AfterTurn(s, i, t); var w := s.writers[i];
      && Inv(f) && i < |f.writers|
      && (f.writers[i].phase.Returned?
          || (&& Prepared(f, i) && f.writers[i].path == w.path && f.writers[i].raw == w.raw
              && f.writers[i].attempt == w.attempt + 1
              && f.writers[i].phase == if w.attempt + 1 < MAX_PUSH_RETRIES then Looping else Failed))
      && (Undisturbed(t, i) ==> f.writers[i].phase.Returned?)
  {
    WorksUpToPush(s, i, t);
    TurnGrowsHistory(s, i, t);
    var e := BeforePush(s, i, t);
    if e.writers[i].phase == Pushing {
      PushKeepsPrepared(e, i, t.delivered, t.acknowledged);
      if Undisturbed(t, i) { UndisturbedPushLands(e, i); }
    }
  }

  // ---------- the whole loop ----------

  lemma UncontestedBefore(h: seq<Commit>, later: seq<Commit>, path: Path, raw: Bytes)
    requires h <= later && Uncontested(later, path, raw)
    ensures Uncontested(h, path, raw)
  {
    forall k | 0 <= k < |h| && path in h[k].tree ensures h[k].tree[path] == raw { assert h[k] == later[k]; }
  }

  /** Where the writer stands after `k` turns. */
  predicate StillReady(s: System, i: nat, path: Path, raw: Bytes, k: nat)
  {
    && Inv(s) && i < |s.writers|
    && (s.writers[i].phase.Returned?
        || (Ready(s, i) && s.writers[i].path == path && s.writers[i].raw == raw && s.writers[i].attempt == k))
  }

  lemma NextTurn(s: System, i: nat, turns: seq<Turn>, k: nat)
    requires k < |turns|
    ensures Run(s, Script(i, turns, k + 1)) == AfterTurn(Run(s, Script(i, turns, k)), i, turns[k])
  {
    RunAppends(s, Script(i, turns, k), TurnEvents(i, turns[k]));
    TurnIsRun(Run(s, Script(i, turns, k)), i, turns[k]);
  }

  lemma ScriptGrowsHistory(s: System, i: nat, turns: seq<Turn>, k: nat)
    requires Inv(s) && k <= |turns|
    ensures Inv(Run(s, Script(i, turns, k)))
    ensures Run(s, Script(i, turns, k)).history <= Run(s, Script(i, turns, |turns|)).history
  {
    ScriptGrows(i, turns, k, |turns|);
    var es, all := Script(i, turns, k), Script(i, turns, |turns|);
    assert es + all[|es|..] == all;
    RunAppends(s, es, all[|es|..]);
    RunKeepsInv(s, es);
    RunKeepsInv(Run(s, es), all[|es|..]);
  }

  lemma ReadyTurn(s: System, i: nat, turns: seq<Turn>, n: nat, k: nat)
    requires Favourable(s, i, turns, n) && k <= n
    requires StillReady(Run(s, Script(i, turns, k)), i, s.writers[i].path, s.writers[i].raw, k)
    ensures k < n ==>
      StillReady(Run(s, Script(i, turns, k + 1)), i, s.writers[i].path, s.writers[i].raw, k + 1)
    ensures k == n ==> OutcomeOf(Run(s, Script(i, turns, k + 1)), i).Some?
  {
    NextTurn(s, i, turns, k);
    UncontestedInTurn(s, i, turns, k, s.writers[i].path, s.writers[i].raw);
    StillReadyTurn(Run(s, Script(i, turns, k)), i, turns[k], s.writers[i].path, s.writers[i].raw, k);
  }

  lemma UncontestedInTurn(s: System, i: nat, turns: seq<Turn>, k: nat, path: Path, raw: Bytes)
    requires Inv(s) && k < |turns| && Uncontested(Run(s, Script(i, turns, |turns|)).history, path, raw)
    ensures Uncontested(BeforeDecide(Run(s, Script(i, turns, k)), i, turns[k]).history, path, raw)
  {
    var r := Run(s, Script(i, turns, k));
    ScriptGrowsHistory(s, i, turns, k);
    ScriptGrowsHistory(s, i, turns, k + 1);
    UncontestedBefore(Run(s, Script(i, turns, k + 1)).history, Run(s, Script(i, turns, |turns|)).history, path, raw);
    NextTurn(s, i, turns, k);
    TurnGrowsHistory(r, i, turns[k]);
    UncontestedBefore(BeforeDecide(r, i, turns[k]).history, AfterTurn(r, i, turns[k]).history, path, raw);
  }

  /** One turn from a state of the script. */
  lemma StillReadyTurn(r: System, i: nat, t: Turn, path: Path, raw: Bytes, k: nat)
    requires StillReady(r, i, path, raw, k) && Works(t, i) && k < MAX_PUSH_RETRIES
    requires Uncontested(BeforeDecide(r, i, t).history, path, raw)
    ensures k + 1 < MAX_PUSH_RETRIES ==> StillReady(AfterTurn(r, i, t), i, path, raw, k + 1)
    ensures Undisturbed(t, i) ==> OutcomeOf(AfterTurn(r, i, t), i).Some?
  {
    TurnGrowsHistory(r, i, t);
    if r.writers[i].phase.Returned? {
      TurnIsRun(r, i, t);
      EndedStays(r, TurnEvents(i, t), i);
    } else {
      WorkingTurn(r, i, t);
    }
  }

  lemma {:induction false} ReadyTurns(s: System, i: nat, turns: seq<Turn>, n: nat, k: nat)
    requires Favourable(s, i, turns, n) && k <= n
    ensures StillReady(Run(s, Script(i, turns, k)), i, s.writers[i].path, s.writers[i].raw, k)
  {
    if k == 0 {
      EnterIsReady(s, i);
      StepKeepsInv(s, Enter(i));
      RunOne(s, [], Enter(i));
      assert [] + [Enter(i)] == [Enter(i)];
    } else {
      ReadyTurns(s, i, turns, n, k - 1);
      ReadyTurn(s, i, turns, n, k - 1);
    }
  }

  /** The publication succeeds if one of its turns is undisturbed and every turn before it at most loses its
      push, as long as nobody publishes other bytes for the commit. */
  lemma FavourableScriptPublishes(s: System, i: nat, turns: seq<Turn>, n: nat)
    requires Favourable(s, i, turns, n)
    ensures OutcomeOf(Run(s, Script(i, turns, |turns|)), i).Some?
  {
    ReadyTurns(s, i, turns, n, n);
    ReadyTurn(s, i, turns, n, n);
    var es, all := Script(i, turns, n + 1), Script(i, turns, |turns|);
    ScriptGrows(i, turns, n + 1, |turns|);
    assert es + all[|es|..] == all;
    RunAppends(s, es, all[|es|..]);
    EndedStays(Run(s, es), all[|es|..], i);
  }
}
