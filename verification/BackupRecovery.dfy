/** A backup stops what writes, captures, and starts it again, whatever fails in between. */
module BackupRecovery {
  import opened Wrappers

  datatype Component = Broker | Workload | Exposure

  datatype Process = Process(owner: Component, id: nat)

  /** Whether a call can be cancelled by the caller, or runs on a context of its own. */
  datatype Context = Caller | Detached

  datatype Event =
    | StopTried(c: Component, ok: bool)
    | Captured(ok: bool)
    | RestartCalled(targets: set<Component>, context: Context)
    | StartTried(c: Component, ok: bool)

  /** An attempt that fails may have touched some processes all the same. */
  datatype Outcome = Outcome(ok: bool, touched: set<Process>)

  /** A call on the caller's context fails once the caller has cancelled. */
  function Effective(o: Outcome, context: Context, cancelled: bool): Outcome
  {
    if context == Caller && cancelled then o.(ok := false) else o
  }

  /** What the runtime answers. `reported` is what the workload stop says of itself, with or without an
      error: that it has stopped something. `cancelled` tells whether the caller had cancelled by the time of
      the recovery; earlier cancellation is one cause of a failed stop or capture. A component that the
      application does not use has no stop. */
  datatype World = World(
    preflightOk: bool, exposure: Option<Outcome>, workload: Outcome, reported: bool, broker: Option<Outcome>,
    captureOk: bool, cancelled: bool,
    brokerStart: Outcome, workloadStart: Outcome, prepareOk: bool, exposureStart: Outcome)

  function Of(ps: set<Process>, c: Component): set<Process> { set p | p in ps && p.owner == c }

  /** The order in which the parts that are in use are stopped, and in which targets are started. */
  function StopOrder(w: World): seq<Component>
  {
    (if w.exposure.Some? then [Exposure] else []) + [Workload] + (if w.broker.Some? then [Broker] else [])
  }

  function StartOrder(targets: set<Component>): seq<Component>
  {
    Wanted(Broker, Broker in targets) + Wanted(Workload, Workload in targets) + Wanted(Exposure, Exposure in targets)
  }

  function Wanted(c: Component, wanted: bool): seq<Component> { if wanted then [c] else [] }

  function Stops(cs: seq<Component>): seq<Event> { seq(|cs|, i requires 0 <= i < |cs| => StopTried(cs[i], true)) }

  function Starts(cs: seq<Component>): seq<Event> { seq(|cs|, i requires 0 <= i < |cs| => StartTried(cs[i], true)) }

  /** All of `order` succeeded, or one failed after those before it succeeded and ended the row. */
  predicate StopRow(order: seq<Component>, es: seq<Event>, ok: bool)
  {
    if ok then es == Stops(order)
    else 0 < |es| <= |order| && es == Stops(order[..|es| - 1]) + [StopTried(order[|es| - 1], false)]
  }

  predicate StartRow(order: seq<Component>, es: seq<Event>, ok: bool)
  {
    if ok then es == Starts(order)
    else 0 < |es| <= |order| && es == Starts(order[..|es| - 1]) + [StartTried(order[|es| - 1], false)]
  }

  /** How the start of a component goes on this context. */
  function Answer(w: World, c: Component, context: Context): Outcome
  {
    Effective(match c
              case Broker => w.brokerStart
              case Workload => w.workloadStart
              case Exposure => if w.prepareOk then w.exposureStart else Outcome(false, {}), context, w.cancelled)
  }

  /** How the stop of a component goes; one that the application does not use has none. */
  function StopAnswer(w: World, c: Component): Outcome
  {
    match c
    case Exposure => if w.exposure.Some? then w.exposure.value else Outcome(true, {})
    case Workload => w.workload
    case Broker => if w.broker.Some? then w.broker.value else Outcome(true, {})
  }

  predicate StopsSucceed(w: World)
  {
    StopAnswer(w, Exposure).ok && StopAnswer(w, Workload).ok && StopAnswer(w, Broker).ok
  }

  /** What every event of a row says is what the runtime answered. */
  predicate StopsAnswered(w: World, es: seq<Event>)
  {
    forall i :: 0 <= i < |es| ==> es[i].StopTried? ==> es[i].ok == StopAnswer(w, es[i].c).ok
  }

  predicate StartsAnswered(w: World, es: seq<Event>, context: Context)
  {
    forall i :: 0 <= i < |es| ==> es[i].StartTried? ==> es[i].ok == Answer(w, es[i].c, context).ok
  }

  /** The processes that the stops which are reached take down. */
  function Halted(w: World, owned: set<Process>): set<Process>
  {
    Of(StopAnswer(w, Exposure).touched, Exposure) * owned
    + (if WorkloadTried(w) then Of(w.workload.touched, Workload) * owned else {})
    + (if WorkloadTried(w) && w.workload.ok then Of(StopAnswer(w, Broker).touched, Broker) * owned else {})
  }

  /** What one start brings up: all of the component if it succeeds. */
  function Up(o: Outcome, owned: set<Process>, c: Component): set<Process>
  {
    Of(if o.ok then owned else o.touched * owned, c)
  }

  function TriedIf(tried: bool, c: Component, ok: bool): seq<Event> { if tried then [StartTried(c, ok)] else [] }

  function UpIf(tried: bool, o: Outcome, owned: set<Process>, c: Component): set<Process>
  {
    if tried then Up(o, owned, c) else {}
  }

  /** The processes that the starts which are reached bring up. */
  function Raised(w: World, owned: set<Process>, targets: set<Component>, context: Context): set<Process>
  {
    UpInTurn(owned, Broker in targets, Workload in targets, Exposure in targets,
             Answer(w, Broker, context), Answer(w, Workload, context), Answer(w, Exposure, context))
  }

  /** Each start is reached only if all before it, as far as they are wanted, came up. */
  function UpInTurn(owned: set<Process>, broker: bool, workload: bool, exposure: bool,
                    b: Outcome, x: Outcome, e: Outcome): set<Process>
  {
    UpIf(broker, b, owned, Broker)
    + UpIf(workload && (broker ==> b.ok), x, owned, Workload)
    + UpIf(exposure && (broker ==> b.ok) && (workload ==> x.ok), e, owned, Exposure)
  }

  function InTurn(broker: bool, workload: bool, exposure: bool, b: Outcome, x: Outcome, e: Outcome): seq<Event>
  {
    TriedIf(broker, Broker, b.ok)
    + TriedIf(workload && (broker ==> b.ok), Workload, x.ok)
    + TriedIf(exposure && (broker ==> b.ok) && (workload ==> x.ok), Exposure, e.ok)
  }

  /** Starting in turn, with these answers, is what the row and the state of a restart are. */
  lemma AnsweredInTurn(w: World, context: Context, broker: bool, workload: bool, exposure: bool,
                       b: Outcome, x: Outcome, e: Outcome)
    requires b == Answer(w, Broker, context) && x == Answer(w, Workload, context) && e == Answer(w, Exposure, context)
    ensures StartsAnswered(w, InTurn(broker, workload, exposure, b, x, e), context)
  {
  }

  lemma RowNext(order: seq<Component>, c: Component, row: seq<Event>, ok: bool, wanted: bool, up: bool)
    requires StartRow(order, row, ok)
    ensures StartRow(order + Wanted(c, wanted), row + TriedIf(wanted && ok, c, up), ok && (wanted ==> up))
  {
    if wanted && ok {
      RowGrows(order, c, row, up);
    } else if wanted {
      RowStays(order, c, row);
      assert row + [] == row;
    } else {
      assert order + Wanted(c, wanted) == order && row + [] == row;
    }
  }

  /** Starting in turn tries the wanted components up to the first that fails. */
  lemma RowInTurn(broker: bool, workload: bool, exposure: bool, b: Outcome, x: Outcome, e: Outcome)
    ensures StartRow(Wanted(Broker, broker) + Wanted(Workload, workload) + Wanted(Exposure, exposure),
                     InTurn(broker, workload, exposure, b, x, e),
                     (broker ==> b.ok) && (workload ==> x.ok) && (exposure ==> e.ok))
  {
    var row := TriedIf(broker, Broker, b.ok);
    var first := broker ==> b.ok;
    RowNext([], Broker, [], true, broker, b.ok);
    assert [] + Wanted(Broker, broker) == Wanted(Broker, broker) && [] + row == row;
    RowNext(Wanted(Broker, broker), Workload, row, first, workload, x.ok);
    row := row + TriedIf(workload && first, Workload, x.ok);
    var order := Wanted(Broker, broker) + Wanted(Workload, workload);
    RowNext(order, Exposure, row, first && (workload ==> x.ok), exposure, e.ok);
  }

  lemma StartsSucceedInTurn(targets: set<Component>, w: World, context: Context)
    ensures StartsSucceed(targets, w, context) <==>
      && (Broker in targets ==> Answer(w, Broker, context).ok)
      && (Workload in targets ==> Answer(w, Workload, context).ok)
      && (Exposure in targets ==> Answer(w, Exposure, context).ok)
  {
    if targets != {} {
      var c :| c in targets;
      assert c == Broker || c == Workload || c == Exposure;
    }
  }

  /** What the starts of these targets depend on. */
  predicate StartsSucceed(targets: set<Component>, w: World, context: Context)
  {
    && (targets != {} && context == Caller ==> !w.cancelled)
    && (Broker in targets ==> w.brokerStart.ok)
    && (Workload in targets ==> w.workloadStart.ok)
    && (Exposure in targets ==> w.prepareOk && w.exposureStart.ok)
  }

  lemma RowGrows(order: seq<Component>, c: Component, row: seq<Event>, ok: bool)
    requires StartRow(order, row, true)
    ensures StartRow(order + [c], row + [StartTried(c, ok)], ok)
  {
    assert (order + [c])[..|row|] == order;
    assert Starts(order + [c]) == Starts(order) + [StartTried(c, true)];
  }

  lemma RowStays(order: seq<Component>, c: Component, row: seq<Event>)
    requires StartRow(order, row, false)
    ensures StartRow(order + [c], row, false)
  {
    assert (order + [c])[..|row| - 1] == order[..|row| - 1];
  }

  /** Every component that lost a process is to be started again. */
  predicate Covers(targets: set<Component>, before: set<Process>, now: set<Process>)
  {
    now <= before && forall p :: p in before && p !in now ==> p.owner in targets
  }

  /** The exposure, which is stopped first, did not end the row. */
  predicate WorkloadTried(w: World) { w.exposure.Some? ==> w.exposure.value.ok }

  /** What the workload stop may have stopped, among these processes. */
  function WorkloadTouched(w: World, owned: set<Process>, before: set<Process>): set<Process>
  {
    Of(w.workload.touched, Workload) * owned * before
  }

  /** The workload stop was not reached, reported something, or touched nothing. */
  predicate Accounted(w: World, owned: set<Process>, before: set<Process>)
  {
    !WorkloadTried(w) || w.reported || WorkloadTouched(w, owned, before) == {}
  }

  /** A workload stop that fails after stopping one process without reporting it. */
  lemma UnreportedStopIsUnaccounted(owned: set<Process>, p: Process, w: World)
    requires p in owned && p.owner == Workload && WorkloadTried(w) && !w.reported && w.workload == Outcome(false, {p})
    ensures !Accounted(w, owned, {p})
  {
    assert p in WorkloadTouched(w, owned, {p});
  }

  /** The targets of the stops that are reached. */
  predicate Reaches(w: World, targets: set<Component>)
  {
    && (Exposure in targets <==> w.exposure.Some?)
    && (Workload in targets <==> WorkloadTried(w) && w.reported)
    && (Broker in targets <==> WorkloadTried(w) && w.workload.ok && w.broker.Some?)
  }

  function StopTargets(w: World): set<Component>
  {
    (if w.exposure.Some? then {Exposure} else {})
    + (if WorkloadTried(w) && w.reported then {Workload} else {})
    + (if WorkloadTried(w) && w.workload.ok && w.broker.Some? then {Broker} else {})
  }

  /** The stops that are reached, with their answers. */
  function StopEvents(w: World): seq<Event>
  {
    (if w.exposure.Some? then [StopTried(Exposure, w.exposure.value.ok)] else [])
    + (if WorkloadTried(w) then [StopTried(Workload, w.workload.ok)] else [])
    + (if WorkloadTried(w) && w.workload.ok && w.broker.Some? then [StopTried(Broker, w.broker.value.ok)] else [])
  }

  lemma StopEventsAreLawful(w: World)
    ensures Stopped(w, StopTargets(w), StopEvents(w), StopsSucceed(w))
  {
    StopEventsAreARow(w);
  }

  lemma StopEventsAreARow(w: World)
    ensures StopRow(StopOrder(w), StopEvents(w), StopsSucceed(w))
  {
    var order, es := StopOrder(w), StopEvents(w);
    if StopsSucceed(w) {
      assert es == Stops(order);
    } else {
      assert es == Stops(order[..|es| - 1]) + [StopTried(order[|es| - 1], false)];
    }
  }

  /** The workload stop is the only one that must report: what stopped is covered exactly if it is accounted for. */
  lemma HaltedIsLowered(w: World, owned: set<Process>, before: set<Process>, targets: set<Component>)
    requires Reaches(w, targets)
    ensures Lowered(owned, targets, before, before - Halted(w, owned), Accounted(w, owned, before))
  {
    var now := before - Halted(w, owned);
    forall p | p in before && p !in now
      ensures p.owner in targets || (p.owner == Workload && p in WorkloadTouched(w, owned, before) && WorkloadTried(w))
    {
      assert p in Halted(w, owned);
    }
    if WorkloadTried(w) {
      forall p | p in WorkloadTouched(w, owned, before) ensures p in before && p !in now && p.owner == Workload {}
    }
  }

  /** What the starts bring up is what a recovery of the targets asks for. */
  lemma RaisedIsRecovered(w: World, owned: set<Process>, low: set<Process>, targets: set<Component>, context: Context)
    ensures Recovered(owned, targets, low, low + Raised(w, owned, targets, context), StartsSucceed(targets, w, context))
  {
    StartsSucceedInTurn(targets, w, context);
    if StartsSucceed(targets, w, context) {
      forall c | c in targets ensures Of(owned, c) <= Raised(w, owned, targets, context) {
        assert c == Broker || c == Workload || c == Exposure;
      }
    }
  }

  class Application {
    /** The processes BaseHarbor manages for the application; others on the host are foreign. */
    const owned: set<Process>
    var running: set<Process>
    ghost var log: seq<Event>

    constructor (mine: set<Process>, up: set<Process>)
      ensures owned == mine && running == up && log == []
    {
      owned, running, log := mine, up, [];
    }

    method Stop(c: Component, o: Outcome)
      modifies this
      ensures log == old(log) + [StopTried(c, o.ok)]
      ensures running == old(running) - Of(o.touched, c) * owned
    {
      running := running - Of(o.touched, c) * owned;
      log := log + [StopTried(c, o.ok)];
    }

    /** Convergence: on success all processes of the component run. */
    method Start(c: Component, o: Outcome)
      modifies this
      ensures log == old(log) + [StartTried(c, o.ok)]
      ensures old(running) <= running && running - owned == old(running) - owned
      ensures forall p :: p in running && p !in old(running) ==> p.owner == c
      ensures o.ok ==> Of(owned, c) <= running
      ensures running == old(running) + Up(o, owned, c)
    {
      running := running + Of(if o.ok then owned else o.touched * owned, c);
      log := log + [StartTried(c, o.ok)];
    }

    /** `stopBackupWriters` up to the decision to recover: the targets are every stop that was attempted,
        the workload only if its stop reports to have stopped something. They cover all that may have
        stopped exactly if that report, where it was asked for, left nothing out. */
    method StopWriters(w: World) returns (targets: set<Component>, ok: bool, ghost stops: seq<Event>)
      modifies this
      ensures log == old(log) + stops && Stopped(w, targets, stops, ok)
      ensures running == old(running) - Halted(w, owned)
    {
      StopEventsAreLawful(w);
      stops := StopEvents(w);
      targets, ok := StopInTurn(w);
    }

    method StopInTurn(w: World) returns (targets: set<Component>, ok: bool)
      modifies this
      ensures log == old(log) + StopEvents(w) && targets == StopTargets(w) && (ok <==> StopsSucceed(w))
      ensures running == old(running) - Halted(w, owned)
    {
      targets := {};
      if w.exposure.Some? {
        targets := {Exposure};
        Stop(Exposure, w.exposure.value);
        if !w.exposure.value.ok { ok := false; return; }
      }
      Stop(Workload, w.workload);
      if w.reported { targets := targets + {Workload}; }
      if !w.workload.ok {
        ok := false;
        return;
      }
      if w.broker.Some? {
        targets := targets + {Broker};
        Stop(Broker, w.broker.value);
        if !w.broker.value.ok { ok := false; return; }
      }
      ok := true;
    }

    /** One step of a restart: a start that is wanted and not held up by an earlier failure. */
    method StartNext(c: Component, wanted: bool, o: Outcome, ok: bool) returns (now: bool)
      modifies this
      ensures now <==> ok && (wanted ==> o.ok)
      ensures log == old(log) + TriedIf(wanted && ok, c, o.ok)
      ensures running == old(running) + UpIf(wanted && ok, o, owned, c)
    {
      now := ok;
      if wanted && ok {
        Start(c, o);
        now := o.ok;
      }
    }

    /** The three starts, each only if it is wanted and all before it came up. */
    method StartInTurn(broker: bool, workload: bool, exposure: bool, b: Outcome, x: Outcome, e: Outcome)
      returns (ok: bool)
      modifies this
      ensures log == old(log) + InTurn(broker, workload, exposure, b, x, e)
      ensures ok <==> (broker ==> b.ok) && (workload ==> x.ok) && (exposure ==> e.ok)
      ensures running == old(running) + UpInTurn(owned, broker, workload, exposure, b, x, e)
    {
      ok := StartNext(Broker, broker, b, true);
      ok := StartNext(Workload, workload, x, ok);
      ok := StartNext(Exposure, exposure, e, ok);
    }

    /** `restartAfterBackup`: broker, workload, exposure, each only while all before it came up. */
    method RestartAfterBackup(targets: set<Component>, w: World, context: Context)
      returns (ok: bool, ghost starts: seq<Event>)
      modifies this
      ensures log == old(log) + starts && StartRow(StartOrder(targets), starts, ok)
      ensures StartsAnswered(w, starts, context)
      ensures running == old(running) + Raised(w, owned, targets, context)
      ensures ok <==> StartsSucceed(targets, w, context)
    {
      var broker, workload, exposure := Broker in targets, Workload in targets, Exposure in targets;
      var b, x, e := Answer(w, Broker, context), Answer(w, Workload, context), Answer(w, Exposure, context);
      AnsweredInTurn(w, context, broker, workload, exposure, b, x, e);
      StartsSucceedInTurn(targets, w, context);
      RowInTurn(broker, workload, exposure, b, x, e);
      starts := InTurn(broker, workload, exposure, b, x, e);
      ok := StartInTurn(broker, workload, exposure, b, x, e);
    }

    /** Capturing reads; it leaves an archive and an event. */
    method Capture(ok: bool)
      modifies this`log
      ensures log == old(log) + [Captured(ok)]
    {
      log := log + [Captured(ok)];
    }

    /** A restart call with these targets on this context. */
    method Recover(targets: set<Component>, w: World, context: Context) returns (ok: bool, ghost starts: seq<Event>)
      modifies this
      ensures log == old(log) + [RestartCalled(targets, context)] + starts
      ensures StartsAnswered(w, starts, context)
      ensures running == old(running) + Raised(w, owned, targets, context)
      ensures StartRow(StartOrder(targets), starts, ok) && (ok <==> StartsSucceed(targets, w, context))
      ensures Recovered(owned, targets, old(running), running, ok)
    {
      RaisedIsRecovered(w, owned, running, targets, context);
      log := log + [RestartCalled(targets, context)];
      ok, starts := RestartAfterBackup(targets, w, context);
    }

    /** The whole run. The caller may cancel at any time: stopping and capturing may then fail, but
        recovery runs on a detached context. */
    method Backup(w: World) returns (ok: bool, ghost run: Trace)
      modifies this
      ensures log == old(log) + Events(run) && Lawful(w, run)
      ensures ok <==> w.preflightOk && StopsSucceed(w) && w.captureOk && run.restarted
      ensures run.stopped <==> w.preflightOk && StopsSucceed(w)
      ensures running ==
        if w.preflightOk then old(running) - Halted(w, owned) + Raised(w, owned, run.targets, Detached)
        else old(running)
      ensures w.preflightOk ==> (run.restarted <==> StartsSucceed(run.targets, w.(cancelled := false), Detached))
      ensures Settled(owned, run.targets, old(running), running, run.restarted,
                      !w.preflightOk || Accounted(w, owned, old(running)))
    {
      if w.preflightOk {
        ok, run := StopCaptureStart(w);
      } else {
        ok, run := false, Trace([], {}, false, [], [], true);
      }
    }

    method StopAndCapture(w: World) returns (targets: set<Component>, ok: bool, ghost stops: seq<Event>)
      modifies this
      ensures log == old(log) + (stops + CaptureIf(ok, w)) && stops != [] && Stopped(w, targets, stops, ok)
      ensures running == old(running) - Halted(w, owned)
      ensures Lowered(owned, targets, old(running), running, Accounted(w, owned, old(running)))
    {
      targets, ok, stops := StopWriters(w);
      assert stops != [];
      HaltedIsLowered(w, owned, old(running), targets);
      if ok { Capture(w.captureOk); }
    }

    method StopCaptureStart(w: World) returns (ok: bool, ghost run: Trace)
      requires w.preflightOk
      modifies this
      ensures log == old(log) + Events(run) && Lawful(w, run)
      ensures ok <==> run.stopped && w.captureOk && run.restarted
      ensures run.stopped <==> StopsSucceed(w)
      ensures running == old(running) - Halted(w, owned) + Raised(w, owned, run.targets, Detached)
      ensures run.restarted <==> StartsSucceed(run.targets, w, Detached)
      ensures Settled(owned, run.targets, old(running), running, run.restarted, Accounted(w, owned, old(running)))
    {
      ghost var before := running;
      var targets, stopped, stops := StopAndCapture(w);
      ghost var low := running;
      var restarted, starts := Recover(targets, w, Detached);
      run := Trace(stops, targets, stopped, CaptureIf(stopped, w), starts, restarted);
      ok := stopped && w.captureOk && restarted;
      Restored(owned, targets, before, low, running, restarted, Accounted(w, owned, before));
      Regroup(old(log), stops + CaptureIf(stopped, w), [RestartCalled(targets, Detached)], starts);
    }
  }

  lemma Regroup(a: seq<Event>, b: seq<Event>, c: seq<Event>, d: seq<Event>)
    ensures a + b + c + d == a + (b + c + d)
  {
  }

  function CaptureIf(stopped: bool, w: World): seq<Event> { if stopped then [Captured(w.captureOk)] else [] }

  predicate Stopped(w: World, targets: set<Component>, stops: seq<Event>, ok: bool)
  {
    && StopRow(StopOrder(w), stops, ok) && StopsAnswered(w, stops) && (ok <==> StopsSucceed(w))
    && TargetsMatch(targets, stops) && Reaches(w, targets)
  }

  /** What stopping leaves: foreign processes as they were; the targets cover what was lost exactly if
      it is accounted for, and else all but a part of the workload. */
  predicate Lowered(owned: set<Process>, targets: set<Component>, before: set<Process>, now: set<Process>,
                    accounted: bool)
  {
    && now <= before && now - owned == before - owned
    && (Covers(targets, before, now) <==> accounted)
    && Covers(targets + {Workload}, before, now)
  }

  /** One run: the stops, what they make necessary to start, the capture, the starts. */
  datatype Trace = Trace(stops: seq<Event>, targets: set<Component>, stopped: bool, capture: seq<Event>,
                         starts: seq<Event>, restarted: bool)

  function Events(t: Trace): seq<Event>
  {
    if t.stops == [] then [] else t.stops + t.capture + [RestartCalled(t.targets, Detached)] + t.starts
  }

  predicate Lawful(w: World, t: Trace)
  {
    if !w.preflightOk then t.stops == [] && t.targets == {} && t.restarted && !t.stopped
    else
      && Stopped(w, t.targets, t.stops, t.stopped) && t.capture == CaptureIf(t.stopped, w)
      && StartRow(StartOrder(t.targets), t.starts, t.restarted) && StartsAnswered(w, t.starts, Detached)
      && (t.restarted <==> StartsSucceed(t.targets, w, Detached))
  }

  /** The targets are what a stop was tried of, except a workload in which nothing was stopped. */
  predicate TargetsMatch(targets: set<Component>, stops: seq<Event>)
  {
    && (forall e :: e in stops && e.StopTried? && e.c != Workload ==> e.c in targets)
    && (forall c :: c in targets ==> StopTried(c, true) in stops || StopTried(c, false) in stops)
  }

  /** Foreign processes are as before; others changed only in targets or in the workload; and after a
      successful restart everything that ran before runs again exactly if it was accounted for. */
  ghost predicate Settled(owned: set<Process>, targets: set<Component>, before: set<Process>, now: set<Process>,
                          restarted: bool, accounted: bool)
  {
    && now - owned == before - owned
    && (forall p :: (p in before) != (p in now) ==> p.owner in targets + {Workload})
    && (restarted ==> (before <= now <==> accounted))
  }

  predicate Recovered(owned: set<Process>, targets: set<Component>, low: set<Process>, now: set<Process>, ok: bool)
  {
    && low <= now && now - owned == low - owned
    && (forall p :: p in now && p !in low ==> p.owner in targets)
    && (ok ==> forall c :: c in targets ==> Of(owned, c) <= now)
  }

  /** Stops and starts put together. */
  lemma Restored(owned: set<Process>, targets: set<Component>, before: set<Process>, low: set<Process>,
                 now: set<Process>, ok: bool, accounted: bool)
    requires Lowered(owned, targets, before, low, accounted) && Recovered(owned, targets, low, now, ok)
    ensures Settled(owned, targets, before, now, ok, accounted)
  {
    if ok && accounted {
      forall p | p in before ensures p in now {
        if p !in low {
          assert p !in low - owned;
          assert p in Of(owned, p.owner);
        }
      }
    } else if ok {
      var p :| p in before && p !in low && p.owner !in targets;
      assert p !in now;
    }
  }

  // ---------- what the order of events means ----------

  /** A run has three kinds of parts. */
  predicate Kinds(t: Trace)
  {
    && t.stops != []
    && (forall i :: 0 <= i < |t.stops| ==> t.stops[i].StopTried?)
    && (forall i :: 0 <= i < |t.capture| ==> t.capture[i].Captured?)
    && (forall i :: 0 <= i < |t.starts| ==> t.starts[i].StartTried?)
  }

  lemma StopRowKinds(order: seq<Component>, es: seq<Event>, ok: bool)
    requires StopRow(order, es, ok) && order != []
    ensures es != [] && forall i :: 0 <= i < |es| ==> es[i].StopTried?
  {
  }

  lemma StartRowKinds(order: seq<Component>, es: seq<Event>, ok: bool)
    requires StartRow(order, es, ok)
    ensures forall i :: 0 <= i < |es| ==> es[i].StartTried?
  {
  }

  lemma LawfulKinds(w: World, t: Trace)
    requires w.preflightOk && Lawful(w, t)
    ensures Kinds(t)
  {
    StopRowKinds(StopOrder(w), t.stops, t.stopped);
    StartRowKinds(StartOrder(t.targets), t.starts, t.restarted);
  }

  /** Where each kind of event stands in a run. */
  lemma KindAt(t: Trace, i: nat)
    requires Kinds(t) && i < |Events(t)|
    ensures var r := |t.stops| + |t.capture|;
      && (Events(t)[i].StopTried? <==> i < |t.stops|)
      && (Events(t)[i].Captured? <==> |t.stops| <= i < r)
      && (Events(t)[i].RestartCalled? <==> i == r)
      && (Events(t)[i].StartTried? <==> r < i)
  {
  }

  /** The archive is captured exactly if every stop that the application needs succeeds, after all of
      them, and nothing has been started again by then. */
  lemma CaptureSeesStoppedWriters(w: World, t: Trace)
    requires w.preflightOk && Lawful(w, t)
    ensures (exists i :: 0 <= i < |Events(t)| && Events(t)[i].Captured?) <==> StopsSucceed(w)
    ensures forall i :: 0 <= i < |Events(t)| && Events(t)[i].Captured? ==> Events(t)[..i] == Stops(StopOrder(w))
  {
    LawfulKinds(w, t);
    if StopsSucceed(w) { assert Events(t)[|t.stops|] == Captured(w.captureOk); }
    forall i | 0 <= i < |Events(t)| && Events(t)[i].Captured?
      ensures StopsSucceed(w) && Events(t)[..i] == Stops(StopOrder(w))
    {
      KindAt(t, i);
      assert Events(t)[..i] == t.stops;
    }
  }

  /** Once a stop was tried, the restart is called exactly once, detached, and last but for its own
      starts. */
  lemma RestartIsCalledOnce(w: World, t: Trace)
    requires w.preflightOk && Lawful(w, t)
    ensures var r := |t.stops| + |t.capture|;
      && r < |Events(t)| && Events(t)[r] == RestartCalled(t.targets, Detached)
      && (forall i :: 0 <= i < |Events(t)| && Events(t)[i].RestartCalled? ==> i == r)
      && (forall i :: 0 <= i < |Events(t)| ==> (Events(t)[i].StartTried? <==> r < i))
  {
    LawfulKinds(w, t);
    forall i | 0 <= i < |Events(t)|
      ensures Events(t)[i].RestartCalled? ==> i == |t.stops| + |t.capture|
      ensures Events(t)[i].StartTried? <==> |t.stops| + |t.capture| < i
    {
      KindAt(t, i);
    }
  }

  function Reverse(cs: seq<Component>): seq<Component> { if cs == [] then [] else Reverse(cs[1..]) + [cs[0]] }

  function Without(cs: seq<Component>, c: Component): seq<Component>
  {
    if cs == [] then [] else (if cs[0] == c then [] else [cs[0]]) + Without(cs[1..], c)
  }

  /** When everything succeeds, things are started in the reverse of the order in which they were
      stopped; only a workload that had nothing to stop is not started. */
  lemma StartsReverseStops(w: World, t: Trace)
    requires w.preflightOk && Lawful(w, t) && t.stopped && t.restarted
    ensures t.stops == Stops(StopOrder(w)) && t.starts == Starts(StartOrder(t.targets))
    ensures StartOrder(t.targets) ==
      Reverse(if Workload in t.targets then StopOrder(w) else Without(StopOrder(w), Workload))
  {
    var order := StopOrder(w);
    forall c ensures c in t.targets ==> c in order { StopsOf(order, c); }
    forall c | c in order && c != Workload ensures c in t.targets { StopsOf(order, c); }
    assert Exposure in t.targets <==> w.exposure.Some?;
    assert Broker in t.targets <==> w.broker.Some?;
    ReverseOrder(w.exposure.Some?, w.broker.Some?);
  }

  lemma StopsOf(order: seq<Component>, c: Component)
    ensures StopTried(c, true) in Stops(order) <==> c in order
    ensures StopTried(c, false) !in Stops(order)
  {
    if c in order {
      var i :| 0 <= i < |order| && order[i] == c;
      assert Stops(order)[i] == StopTried(c, true);
    }
  }

  lemma OneAndTwo(a: Component, b: Component)
    ensures Reverse([a]) == [a] && Reverse([a, b]) == [b, a]
    ensures b != Workload ==> Without([b], Workload) == [b]
    ensures Without([Workload, b], Workload) == Without([b], Workload)
  {
    assert [a][1..] == [] && [b][1..] == [] && [a, b][1..] == [b] && [Workload, b][1..] == [b];
  }

  lemma ReverseOrder(exposure: bool, broker: bool)
    ensures var order := (if exposure then [Exposure] else []) + [Workload] + (if broker then [Broker] else []);
      && Reverse(order) == (if broker then [Broker] else []) + [Workload] + (if exposure then [Exposure] else [])
      && Reverse(Without(order, Workload)) == (if broker then [Broker] else []) + (if exposure then [Exposure] else [])
  {
    var order := (if exposure then [Exposure] else []) + [Workload] + (if broker then [Broker] else []);
    OneAndTwo(Workload, Broker);
    OneAndTwo(Exposure, Workload);
    OneAndTwo(Exposure, Broker);
    assert [Workload][1..] == [];
    if exposure {
      assert order[1..] == [Workload] + (if broker then [Broker] else []);
      assert order[0] == Exposure;
    }
  }
}
